/** Small vocabulary shared by the whole model: optional values, bytes, digests and
    the structured names that the source spells as formatted strings. */
module Common {

  datatype Option<+T> = None | Some(value: T)

  datatype Result<+T, +E> = Ok(value: T) | Err(error: E)

  newtype byte = b: int | 0 <= b < 256

  type Bytes = seq<byte>

  /** SHA-256 seen symbolically: a digest remembers what was hashed, so two digests are
      equal exactly when their inputs are (collision freedom, and nothing more). */
  datatype Digest = Sha256(input: Bytes)

  /** Segment identifiers. The source formats them as "persistent" and "layer_{i}";
      `Named` stands for any other identifier handed to the image builder. */
  datatype SegmentId = Persistent | LayerSegment(index: nat) | Named(text: string)

  /** What a tensor name is about. The source formats names as "{root}.{item}.{part}" and
      "{root}.layers.{layer}.{item}.{part}"; the parts of a formatted name are kept apart here. */
  datatype GlobalItem = EmbedTokens | FinalNorm | LmHead

  datatype LayerItem =
    | InputLayernorm | PostAttentionLayernorm | QNorm | KNorm
    | QProj | KProj | VProj | OProj
    | GateProj | UpProj | DownProj

  datatype TensorPart = Weight | Scales | Biases

  datatype TensorName =
    | GlobalTensor(root: string, global: GlobalItem, part: TensorPart)
    | LayerTensor(root: string, layer: nat, item: LayerItem, part: TensorPart)
}
