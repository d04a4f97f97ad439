/** What the builder writes and what the model server reads back: the file saved by
    build_and_upload_embeddings.py, once loaded by model_server.py, names for every row the
    model of the reference image that row was computed from. */
module Alignment {
  import opened Common
  import opened ReferenceBuild
  import opened ModelServer

  /** Loading the saved references gives rows and keys of the same length: row i is the
      embedding and key i the model key of the i-th reference in sorted order. */
  lemma SavedReferencesLoadAligned(listing: seq<string>, embed: string -> Option<Embedding>,
                                   load: Bytes -> Option<EmbeddingFile>, bytes: Bytes, path: string)
    requires FirstUnembeddable(Accepted(listing), embed) == |Accepted(listing)|
    requires load(bytes) == Some(ReferenceFile(Embeddings(Accepted(listing), embed), ModelKeys(Accepted(listing))))
    ensures var loaded := FromFile(path, load(bytes));
      && loaded.Success?
      && |loaded.value.0| == |loaded.value.1| == |Accepted(listing)|
      && (forall i | 0 <= i < |loaded.value.1| :: loaded.value.1[i] == ModelKey(Accepted(listing)[i]))
      && (forall i | 0 <= i < |loaded.value.0| :: Some(loaded.value.0[i]) == embed(Accepted(listing)[i]))
  {
    var refs := Accepted(listing);
    var f := ReferenceFile(Embeddings(refs, embed), ModelKeys(refs));
    assert FromFile(path, Some(f)) == Success((Embeddings(refs, embed), ModelKeys(refs)));
  }

  /** With one score per reference, the key the server answers is the model key of the first
      best-scoring reference image. */
  lemma BestKeyNamesBestImage(listing: seq<string>, embed: string -> Option<Embedding>,
                              load: Bytes -> Option<EmbeddingFile>, bytes: Bytes, path: string,
                              sims: seq<int>)
    requires Accepted(listing) != []
    requires FirstUnembeddable(Accepted(listing), embed) == |Accepted(listing)|
    requires load(bytes) == Some(ReferenceFile(Embeddings(Accepted(listing), embed), ModelKeys(Accepted(listing))))
    requires |sims| == |Accepted(listing)|
    ensures var loaded := FromFile(path, load(bytes));
      && loaded.Success?
      && SelectBest(sims, loaded.value.1)
         == Success(Selection(ArgMax(sims), Some(ModelKey(Accepted(listing)[ArgMax(sims)]))))
  {
    SavedReferencesLoadAligned(listing, embed, load, bytes, path);
    SelectBestAligned(sims, FromFile(path, load(bytes)).value.1);
  }
}
