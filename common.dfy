/** Values shared by the relay backend, the model server and the reference builder. */
module Common {

  datatype Option<+T> = None | Some(value: T) {
    function GetOr(default: T): T {
      match this
      case Some(v) => v
      case None => default
    }
  }

  datatype Result<+R, +E> = Success(value: R) | Failure(error: E)

  /** Raw object or file contents. */
  type Bytes = seq<bv8>

  /** One row of CLIP image features; the numerics are not modelled, rows are opaque values. */
  type Embedding = seq<real>

  /** The dictionary that `torch.save` writes and `torch.load` reads back:
      `{"embeddings": <rows>, "keys": <storage keys>}`, either entry possibly absent. */
  datatype EmbeddingFile = EmbeddingFile(embeddings: Option<seq<Embedding>>, keys: Option<seq<string>>)

  /** Python and JavaScript truthiness of an optional string: absent and "" are falsy. */
  predicate Truthy(s: Option<string>) {
    s.Some? && s.value != ""
  }

  /** Taking one more element of a sequence appends that element. */
  lemma TakeOneMore<T>(s: seq<T>, i: nat)
    requires i < |s|
    ensures s[..i + 1] == s[..i] + [s[i]]
  {
  }
}
