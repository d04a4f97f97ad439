/** The model server (model_server.py): the lazily loaded CLIP model, the reference-embedding
    cache with its three tiers, and the `/match` endpoint's selection of the best reference key. */
module ModelServer {
  import opened Common
  import opened Text

  /** `CLIPModel.from_pretrained(name[, use_safetensors=...])` moved to the device. */
  datatype ClipModel = ClipModel(name: string, safetensors: Option<bool>, device: string)

  datatype ClipProcessor = ClipProcessor(name: string)

  /** A decoded RGB image; its pixels are not modelled. */
  datatype Image = Rgb(source: Bytes)

  /** What `/match` raises; FastAPI answers 500 for all but the HTTP exception. */
  datatype Exception =
    | HttpException(status: nat, detail: string)
    | RuntimeError(message: string)
    | PretrainedUnavailable                 // from_pretrained raised
    | UnreadableFile(path: string)          // torch.load raised
    | MissingEntry(entry: string)           // KeyError on the loaded dictionary
    | NoSuchObject(bucket: string, key: string)
    | UndecodableImage(key: string)
    | ProcessorNotCallable                  // the cached processor is None
    | FeaturesFailed                        // processor or model raised on the image batch
    | EmptyArgmax                           // argmax of a tensor with no elements
    | KeyIndexOutOfRange(index: nat)        // ref_keys[idx] past the end of ref_keys

  function StatusOf(e: Exception): nat {
    if e.HttpException? then e.status else 500
  }

  /** Side effects the server performs, in order. */
  datatype Event =
    | PretrainedModel(safetensors: Option<bool>)
    | PretrainedProcessor
    | FileRead(path: string)
    | FileWrite(path: string)
    | Download(bucket: string, key: string)

  /** What one call of `load_model` returns, the cached model and processor after it, and the
      events it performs. */
  datatype LoadStep = LoadStep(result: Result<(ClipModel, Option<ClipProcessor>), Exception>,
                               model: Option<ClipModel>, processor: Option<ClipProcessor>, events: seq<Event>)

  /** What one call of `ensure_reference_embeddings` returns, the cache and local disk after it,
      and the events it performs. */
  datatype ReferenceStep = ReferenceStep(result: Result<(seq<Embedding>, seq<string>), Exception>,
                                         refEmbeddings: Option<seq<Embedding>>, refKeys: seq<string>,
                                         disk: map<string, Bytes>, events: seq<Event>)

  /** The JSON body of a successful `/match`. */
  datatype MatchReply = MatchReply(bestMatchKey: Option<string>, bestScore: int, allScores: seq<int>)

  const NotUploadedMessage := "Reference embeddings not found. Upload first."
  const BucketMissingDetail := "bucket missing"

  /** `os.environ.get("USE_SAFETENSORS", "true").lower() in ("1", "true", "yes")`. */
  function UseSafetensors(env: Option<string>): bool {
    Lower(env.GetOr("true")) in {"1", "true", "yes"}
  }

  lemma {:induction false} LowerIdempotent(s: string)
    ensures Lower(Lower(s)) == Lower(s)
  {
    forall i | 0 <= i < |s| ensures Lower(Lower(s))[i] == Lower(s)[i] {
      var c := s[i];
      if 'A' <= c <= 'Z' {
        assert LowerChar(c) as int == c as int + 32;
      }
    }
  }

  /** Safetensors are on by default, and the setting ignores letter case. */
  lemma UseSafetensorsCaseInsensitive(s: string)
    ensures UseSafetensors(None)
    ensures UseSafetensors(Some(s)) == UseSafetensors(Some(Lower(s)))
  {
    LowerIdempotent(s);
    var t := "true";
    assert forall i | 0 <= i < |t| :: !('A' <= t[i] <= 'Z');
    assert Lower(t) == t;
  }

  /** `req.bucket or S3_BUCKET`, None when the result is falsy. */
  function EffectiveBucket(requested: Option<string>, configured: Option<string>): (b: Option<string>)
    ensures b.Some? <==> Truthy(requested) || Truthy(configured)
    ensures b.Some? ==> b.value != ""
    ensures Truthy(requested) ==> b == requested
    ensures !Truthy(requested) && Truthy(configured) ==> b == configured
  {
    if Truthy(requested) then requested else if Truthy(configured) then configured else None
  }

  /** `torch.argmax` over a non-empty score vector: the first position of the maximum. */
  function ArgMax(s: seq<int>): (i: nat)
    requires |s| > 0
    ensures i < |s|
    ensures forall j | 0 <= j < |s| :: s[j] <= s[i]
    ensures forall j | 0 <= j < i :: s[j] < s[i]
  {
    if |s| == 1 then 0
    else
      var k := ArgMax(s[..|s| - 1]);
      if s[|s| - 1] > s[k] then |s| - 1 else k
  }

  /** The first maximal position is the only one with those two properties. */
  lemma ArgMaxUnique(s: seq<int>, i: nat)
    requires i < |s|
    requires forall j | 0 <= j < |s| :: s[j] <= s[i]
    requires forall j | 0 <= j < i :: s[j] < s[i]
    ensures ArgMax(s) == i
  {
    var k := ArgMax(s);
    assert !(k < i) && !(i < k);
  }

  datatype Selection = Selection(index: nat, key: Option<string>)

  /** `idx = argmax(sims)`, then `ref_keys[idx] if ref_keys else None`. */
  function SelectBest(sims: seq<int>, refKeys: seq<string>): (r: Result<Selection, Exception>)
  {
    if |sims| == 0 then Failure(EmptyArgmax)
    else
      var idx := ArgMax(sims);
      if refKeys == [] then Success(Selection(idx, None))
      else if idx < |refKeys| then Success(Selection(idx, Some(refKeys[idx])))
      else Failure(KeyIndexOutOfRange(idx))
  }

  /** The selected position holds a highest score, no earlier position ties it, and the key is
      the reference key at that position (None only when there are no keys). The selection
      fails only on no scores, or on fewer keys than the chosen position needs. */
  lemma SelectBestSound(sims: seq<int>, refKeys: seq<string>)
    ensures var r := SelectBest(sims, refKeys);
      && (r.Failure? <==> |sims| == 0 || (refKeys != [] && ArgMax(sims) >= |refKeys|))
      && (r.Success? ==>
            && r.value.index < |sims|
            && (forall j | 0 <= j < |sims| :: sims[j] <= sims[r.value.index])
            && (forall j | 0 <= j < r.value.index :: sims[j] < sims[r.value.index])
            && (refKeys == [] <==> r.value.key.None?)
            && (refKeys != [] ==> r.value.key == Some(refKeys[r.value.index])))
  {
  }

  /** With at least as many keys as scores, selection never fails for lack of a key. */
  lemma SelectBestAligned(sims: seq<int>, refKeys: seq<string>)
    requires 0 < |sims| <= |refKeys|
    ensures SelectBest(sims, refKeys) == Success(Selection(ArgMax(sims), Some(refKeys[ArgMax(sims)])))
  {
  }

  /** The cache contents a loaded dictionary gives: `data["embeddings"]` (a KeyError when
      absent) and `data.get("keys", [])`; `None` stands for `torch.load` raising. */
  function FromFile(path: string, data: Option<EmbeddingFile>): (r: Result<(seq<Embedding>, seq<string>), Exception>)
    ensures data.None? ==> r == Failure(UnreadableFile(path))
    ensures data.Some? && data.value.embeddings.None? ==> r == Failure(MissingEntry("embeddings"))
    ensures r.Success? ==> data.Some? && data.value.embeddings == Some(r.value.0)
    ensures r.Success? && data.value.keys.None? ==> r.value.1 == []
    ensures r.Success? && data.value.keys.Some? ==> r.value.1 == data.value.keys.value
  {
    match data
    case None => Failure(UnreadableFile(path))
    case Some(f) =>
      if f.embeddings.None? then Failure(MissingEntry("embeddings"))
      else Success((f.embeddings.value, f.keys.GetOr([])))
  }

  function Downloads(bucket: string, keys: seq<string>): (events: seq<Event>)
    ensures |events| == |keys|
  {
    seq(|keys|, i requires 0 <= i < |keys| => Download(bucket, keys[i]))
  }

  /** Model, processor, reference data and the local file system, as the module globals and the
      disk hold them; the storage service, `torch.load`, PIL and CLIP are functions given at
      construction. */
  class ModelServer {
    const modelName: string
    const device: string
    const safetensorsEnv: Option<string>
    /** Whether `CLIPModel.from_pretrained` succeeds, with `use_safetensors` given or not. */
    const modelLoads: Option<bool> -> bool
    const processorLoads: bool
    const s3Bucket: Option<string>
    const embS3Key: string
    const embLocal: string
    const objects: map<(string, string), Bytes>
    const diskWritable: bool
    const torchLoad: Bytes -> Option<EmbeddingFile>
    const decodeImage: Bytes -> Option<Image>
    /** Processor, model, normalisation and mean over the request's images; None when they raise. */
    const embedImages: (ClipModel, ClipProcessor, seq<Image>) -> Option<Embedding>
    /** Cosine similarity of the query with one normalised reference row. */
    const similarity: (Embedding, Embedding) -> int

    var model: Option<ClipModel>
    var processor: Option<ClipProcessor>
    var refEmbeddings: Option<seq<Embedding>>
    var refKeys: seq<string>
    var disk: map<string, Bytes>
    var log: seq<Event>

    constructor (modelName: string, device: string, safetensorsEnv: Option<string>,
                 modelLoads: Option<bool> -> bool, processorLoads: bool,
                 s3Bucket: Option<string>, embS3Key: string, embLocal: string,
                 objects: map<(string, string), Bytes>, disk: map<string, Bytes>, diskWritable: bool,
                 torchLoad: Bytes -> Option<EmbeddingFile>, decodeImage: Bytes -> Option<Image>,
                 embedImages: (ClipModel, ClipProcessor, seq<Image>) -> Option<Embedding>,
                 similarity: (Embedding, Embedding) -> int)
      ensures this.modelName == modelName && this.device == device && this.safetensorsEnv == safetensorsEnv
      ensures this.modelLoads == modelLoads && this.processorLoads == processorLoads
      ensures this.s3Bucket == s3Bucket && this.embS3Key == embS3Key && this.embLocal == embLocal
      ensures this.objects == objects && this.disk == disk && this.diskWritable == diskWritable
      ensures this.torchLoad == torchLoad && this.decodeImage == decodeImage
      ensures this.embedImages == embedImages && this.similarity == similarity
      ensures model == None && processor == None && refEmbeddings == None && refKeys == [] && log == []
    {
      this.modelName, this.device, this.safetensorsEnv := modelName, device, safetensorsEnv;
      this.modelLoads, this.processorLoads := modelLoads, processorLoads;
      this.s3Bucket, this.embS3Key, this.embLocal := s3Bucket, embS3Key, embLocal;
      this.objects, this.disk, this.diskWritable := objects, disk, diskWritable;
      this.torchLoad, this.decodeImage := torchLoad, decodeImage;
      this.embedImages, this.similarity := embedImages, similarity;
      model, processor, refEmbeddings, refKeys, log := None, None, None, [], [];
    }

    /** `load_model` from the cached pair: builds model and processor only while no model is
        cached; once a model is cached, returns the cached pair untouched, even when the
        processor never loaded. */
    function LoadModelStep(cachedModel: Option<ClipModel>, cachedProcessor: Option<ClipProcessor>): LoadStep {
      if cachedModel.Some? then LoadStep(Success((cachedModel.value, cachedProcessor)), cachedModel, cachedProcessor, [])
      else
        var u := UseSafetensors(safetensorsEnv);
        if modelLoads(Some(u)) then
          ProcessorStep(ClipModel(modelName, Some(u), device), cachedProcessor, [PretrainedModel(Some(u))])
        else if modelLoads(None) then
          ProcessorStep(ClipModel(modelName, None, device), cachedProcessor, [PretrainedModel(Some(u)), PretrainedModel(None)])
        else
          LoadStep(Failure(PretrainedUnavailable), None, cachedProcessor, [PretrainedModel(Some(u)), PretrainedModel(None)])
    }

    /** The model `m` is cached first; then the processor is loaded. */
    function ProcessorStep(m: ClipModel, cachedProcessor: Option<ClipProcessor>, attempts: seq<Event>): LoadStep {
      if processorLoads then
        var p := Some(ClipProcessor(modelName));
        LoadStep(Success((m, p)), Some(m), p, attempts + [PretrainedProcessor])
      else
        LoadStep(Failure(PretrainedUnavailable), Some(m), cachedProcessor, attempts + [PretrainedProcessor])
    }

    /** A cached model is returned with the cached processor and nothing is loaded. Otherwise the
        loader tries with the safetensors setting, falls back to the default load, and then loads
        the processor; the model stays cached even when the processor fails. */
    lemma LoadModelBehaviour(cachedModel: Option<ClipModel>, cachedProcessor: Option<ClipProcessor>)
      ensures var s := LoadModelStep(cachedModel, cachedProcessor);
        && (cachedModel.Some? ==>
              s == LoadStep(Success((cachedModel.value, cachedProcessor)), cachedModel, cachedProcessor, []))
        && (cachedModel.None? ==>
              var u := UseSafetensors(safetensorsEnv);
              var attempts := if modelLoads(Some(u)) then [PretrainedModel(Some(u))]
                              else [PretrainedModel(Some(u)), PretrainedModel(None)];
              if !modelLoads(Some(u)) && !modelLoads(None) then
                s == LoadStep(Failure(PretrainedUnavailable), None, cachedProcessor, attempts)
              else
                var m := ClipModel(modelName, if modelLoads(Some(u)) then Some(u) else None, device);
                && s.model == Some(m)
                && s.events == attempts + [PretrainedProcessor]
                && (processorLoads ==>
                      s.processor == Some(ClipProcessor(modelName)) && s.result == Success((m, s.processor)))
                && (!processorLoads ==>
                      s.processor == cachedProcessor && s.result == Failure(PretrainedUnavailable)))
    {
    }

    /** Once a call has cached a model, the next call loads nothing and returns the cached pair. */
    lemma LoadModelMemoised(cachedModel: Option<ClipModel>, cachedProcessor: Option<ClipProcessor>)
      ensures var s := LoadModelStep(cachedModel, cachedProcessor);
        s.model.Some? ==>
          LoadModelStep(s.model, s.processor) == LoadStep(Success((s.model.value, s.processor)), s.model, s.processor, [])
    {
    }

    /** A processor that fails to load leaves the model cached without a processor: every later
        call succeeds with no processor and loads nothing, so `match` then fails on the
        processor. */
    lemma ProcessorFailureIsCached()
      requires !processorLoads
      requires modelLoads(Some(UseSafetensors(safetensorsEnv))) || modelLoads(None)
      ensures var first := LoadModelStep(None, None);
        && first.result == Failure(PretrainedUnavailable)
        && first.model.Some?
        && LoadModelStep(first.model, first.processor) == LoadStep(Success((first.model.value, None)), first.model, None, [])
    {
    }

    /** `load_model`. */
    method LoadModel() returns (r: Result<(ClipModel, Option<ClipProcessor>), Exception>)
      modifies this`model, this`processor, this`log
      ensures var s := LoadModelStep(old(model), old(processor));
        r == s.result && model == s.model && processor == s.processor && log == old(log) + s.events
    {
      if model.Some? {
        return Success((model.value, processor));
      }
      var u := UseSafetensors(safetensorsEnv);
      var m: ClipModel;
      log := log + [PretrainedModel(Some(u))];
      if modelLoads(Some(u)) {
        m := ClipModel(modelName, Some(u), device);
      } else {
        log := log + [PretrainedModel(None)];
        if !modelLoads(None) {
          return Failure(PretrainedUnavailable);
        }
        m := ClipModel(modelName, None, device);
      }
      model := Some(m);
      log := log + [PretrainedProcessor];
      if !processorLoads {
        return Failure(PretrainedUnavailable);
      }
      processor := Some(ClipProcessor(modelName));
      r := Success((m, processor));
    }

    /** `download_s3_to_bytes`. */
    method DownloadToBytes(bucket: string, key: string) returns (r: Result<Bytes, Exception>)
      modifies this`log
      ensures log == old(log) + [Download(bucket, key)]
      ensures (bucket, key) in objects ==> r == Success(objects[(bucket, key)])
      ensures (bucket, key) !in objects ==> r == Failure(NoSuchObject(bucket, key))
    {
      log := log + [Download(bucket, key)];
      if (bucket, key) in objects {
        r := Success(objects[(bucket, key)]);
      } else {
        r := Failure(NoSuchObject(bucket, key));
      }
    }

    /** `ensure_reference_embeddings` from the cache and the disk: the memory cache, else the
        local file, else the stored copy written to the local file first; a failure on that last
        path is reported as "not uploaded". */
    function ReferenceStepFrom(cache: Option<seq<Embedding>>, keys: seq<string>, disk0: map<string, Bytes>): ReferenceStep {
      if cache.Some? then ReferenceStep(Success((cache.value, keys)), cache, keys, disk0, [])
      else if embLocal in disk0 then
        Cache(FromFile(embLocal, torchLoad(disk0[embLocal])), cache, keys, disk0, [FileRead(embLocal)])
      else if s3Bucket.None? then
        ReferenceStep(Failure(RuntimeError(NotUploadedMessage)), cache, keys, disk0, [])
      else
        var at := (s3Bucket.value, embS3Key);
        if at !in objects || !diskWritable then
          ReferenceStep(Failure(RuntimeError(NotUploadedMessage)), cache, keys, disk0, [Download(at.0, at.1)])
        else
          var loaded := FromFile(embLocal, torchLoad(objects[at]));
          var written := disk0[embLocal := objects[at]];
          var events := [Download(at.0, at.1), FileWrite(embLocal), FileRead(embLocal)];
          if loaded.Failure? then ReferenceStep(Failure(RuntimeError(NotUploadedMessage)), cache, keys, written, events)
          else Cache(loaded, cache, keys, written, events)
    }

    /** A loaded pair replaces the cache; a failure leaves it as it was. */
    function Cache(loaded: Result<(seq<Embedding>, seq<string>), Exception>, cache: Option<seq<Embedding>>,
                   keys: seq<string>, disk0: map<string, Bytes>, events: seq<Event>): ReferenceStep {
      if loaded.Success? then ReferenceStep(loaded, Some(loaded.value.0), loaded.value.1, disk0, events)
      else ReferenceStep(loaded, cache, keys, disk0, events)
    }

    /** A populated cache is returned with no file or storage access; otherwise an existing local
        file is loaded without a download; otherwise the configured object is downloaded, written
        to the local file and loaded, any failure on that path being the RuntimeError. On success
        the cache holds what was returned; on failure it is unchanged. */
    lemma ReferenceStepBehaviour(cache: Option<seq<Embedding>>, keys: seq<string>, disk0: map<string, Bytes>)
      ensures var s := ReferenceStepFrom(cache, keys, disk0);
        && (cache.Some? ==> s == ReferenceStep(Success((cache.value, keys)), cache, keys, disk0, []))
        && (cache.None? && embLocal in disk0 ==>
              s.result == FromFile(embLocal, torchLoad(disk0[embLocal])) && s.disk == disk0 && s.events == [FileRead(embLocal)])
        && (cache.None? && embLocal !in disk0 ==>
              if s3Bucket.None? then
                s.result == Failure(RuntimeError(NotUploadedMessage)) && s.disk == disk0 && s.events == []
              else
                var at := (s3Bucket.value, embS3Key);
                if at !in objects || !diskWritable then
                  s.result == Failure(RuntimeError(NotUploadedMessage)) && s.disk == disk0 && s.events == [Download(at.0, at.1)]
                else
                  var loaded := FromFile(embLocal, torchLoad(objects[at]));
                  && s.result == (if loaded.Failure? then Failure(RuntimeError(NotUploadedMessage)) else loaded)
                  && s.disk == disk0[embLocal := objects[at]]
                  && s.events == [Download(at.0, at.1), FileWrite(embLocal), FileRead(embLocal)])
        && (s.result.Success? ==> s.refEmbeddings == Some(s.result.value.0) && s.refKeys == s.result.value.1)
        && (s.result.Failure? ==> s.refEmbeddings == cache && s.refKeys == keys)
    {
    }

    /** Once a call has filled the cache, the next call returns the same pair with no file or
        storage access. */
    lemma ReferencesMemoised(cache: Option<seq<Embedding>>, keys: seq<string>, disk0: map<string, Bytes>)
      ensures var s := ReferenceStepFrom(cache, keys, disk0);
        s.result.Success? ==>
          ReferenceStepFrom(s.refEmbeddings, s.refKeys, s.disk) == ReferenceStep(s.result, s.refEmbeddings, s.refKeys, s.disk, [])
    {
    }

    /** `ensure_reference_embeddings`. */
    method EnsureReferenceEmbeddings() returns (r: Result<(seq<Embedding>, seq<string>), Exception>)
      modifies this`refEmbeddings, this`refKeys, this`disk, this`log
      ensures var s := ReferenceStepFrom(old(refEmbeddings), old(refKeys), old(disk));
        && r == s.result && refEmbeddings == s.refEmbeddings && refKeys == s.refKeys
        && disk == s.disk && log == old(log) + s.events
    {
      if refEmbeddings.Some? {
        return Success((refEmbeddings.value, refKeys));
      }
      if embLocal in disk {
        log := log + [FileRead(embLocal)];
        r := FromFile(embLocal, torchLoad(disk[embLocal]));
        if r.Success? {
          refEmbeddings, refKeys := Some(r.value.0), r.value.1;
        }
        return;
      }
      if s3Bucket.None? {
        return Failure(RuntimeError(NotUploadedMessage));
      }
      var b := DownloadToBytes(s3Bucket.value, embS3Key);
      if b.Failure? || !diskWritable {
        return Failure(RuntimeError(NotUploadedMessage));
      }
      disk := disk[embLocal := b.value];
      log := log + [FileWrite(embLocal), FileRead(embLocal)];
      r := FromFile(embLocal, torchLoad(disk[embLocal]));
      if r.Failure? {
        return Failure(RuntimeError(NotUploadedMessage));
      }
      refEmbeddings, refKeys := Some(r.value.0), r.value.1;
    }

    /** One key of a request: its download and its decoding. */
    function Fetched(bucket: string, key: string): Result<Image, Exception> {
      if (bucket, key) !in objects then Failure(NoSuchObject(bucket, key))
      else match decodeImage(objects[(bucket, key)])
        case None => Failure(UndecodableImage(key))
        case Some(img) => Success(img)
    }

    /** The first key whose download or decoding fails, or |keys| when none does. */
    function FirstFailedFetch(bucket: string, keys: seq<string>): (k: nat)
      ensures k <= |keys|
      ensures forall i | 0 <= i < k :: Fetched(bucket, keys[i]).Success?
      ensures k < |keys| ==> Fetched(bucket, keys[k]).Failure?
    {
      if keys == [] then 0
      else if Fetched(bucket, keys[0]).Failure? then 0
      else 1 + FirstFailedFetch(bucket, keys[1..])
    }

    /** The decoded images of keys that all fetch, in request order. */
    function Images(bucket: string, keys: seq<string>): (images: seq<Image>)
      requires FirstFailedFetch(bucket, keys) == |keys|
      ensures |images| == |keys|
      ensures forall i | 0 <= i < |keys| :: Fetched(bucket, keys[i]) == Success(images[i])
    {
      seq(|keys|, i requires 0 <= i < |keys| => Fetched(bucket, keys[i]).value)
    }

    /** The downloads of the image loop: every key up to and including the first that fails. */
    function FetchEvents(bucket: string, keys: seq<string>): seq<Event> {
      var k := FirstFailedFetch(bucket, keys);
      if k < |keys| then Downloads(bucket, keys[..k + 1]) else Downloads(bucket, keys)
    }

    /** The image loop of `match`: each key downloaded once, in request order, until one fails. */
    method DownloadImages(bucket: string, keys: seq<string>) returns (r: Result<seq<Image>, Exception>)
      modifies this`log
      ensures var k := FirstFailedFetch(bucket, keys);
        && (k < |keys| ==>
              r == Failure(Fetched(bucket, keys[k]).error) && log == old(log) + Downloads(bucket, keys[..k + 1]))
        && (k == |keys| ==>
              && r.Success? && |r.value| == |keys| && log == old(log) + Downloads(bucket, keys)
              && forall i | 0 <= i < |keys| :: Fetched(bucket, keys[i]) == Success(r.value[i]))
    {
      var images: seq<Image> := [];
      var i := 0;
      while i < |keys|
        invariant 0 <= i <= |keys|
        invariant i <= FirstFailedFetch(bucket, keys)
        invariant log == old(log) + Downloads(bucket, keys[..i])
        invariant |images| == i
        invariant forall j | 0 <= j < i :: Fetched(bucket, keys[j]) == Success(images[j])
      {
        var b := DownloadToBytes(bucket, keys[i]);
        assert Downloads(bucket, keys[..i + 1]) == Downloads(bucket, keys[..i]) + [Download(bucket, keys[i])];
        if b.Failure? {
          return Failure(b.error);
        }
        var img := decodeImage(b.value);
        if img.None? {
          return Failure(UndecodableImage(keys[i]));
        }
        images := images + [img.value];
        i := i + 1;
      }
      assert keys[..i] == keys;
      r := Success(images);
    }

    /** `sims`: one score per reference row. */
    function Scores(query: Embedding, refs: seq<Embedding>): (sims: seq<int>)
      ensures |sims| == |refs|
    {
      seq(|refs|, i requires 0 <= i < |refs| => similarity(query, refs[i]))
    }

    /** What `match` answers once the bucket is known and the model and references are loaded:
        the first image that cannot be fetched, a missing processor, a failed embedding, or the
        selection over the scores of the request's images against every reference row. */
    function AnswerOf(bucket: string, s3Keys: seq<string>, m: ClipModel, p: Option<ClipProcessor>,
                      refEmbs: seq<Embedding>, keys: seq<string>): (r: Result<MatchReply, Exception>)
      ensures var k := FirstFailedFetch(bucket, s3Keys);
        && (k < |s3Keys| ==> r == Failure(Fetched(bucket, s3Keys[k]).error))
        && (k == |s3Keys| && p.None? ==> r == Failure(ProcessorNotCallable))
        && (r.Success? ==>
              && k == |s3Keys| && p.Some?
              && var q := embedImages(m, p.value, Images(bucket, s3Keys));
              && q.Some?
              && r.value.allScores == Scores(q.value, refEmbs)
              && |refEmbs| > 0
              && var idx := ArgMax(r.value.allScores);
              && r.value.bestScore == r.value.allScores[idx]
              && (keys == [] ==> r.value.bestMatchKey == None)
              && (keys != [] ==> idx < |keys| && r.value.bestMatchKey == Some(keys[idx])))
        && (r.Failure? ==> !r.error.HttpException?)
    {
      var k := FirstFailedFetch(bucket, s3Keys);
      if k < |s3Keys| then Failure(Fetched(bucket, s3Keys[k]).error)
      else if p.None? then Failure(ProcessorNotCallable)
      else match embedImages(m, p.value, Images(bucket, s3Keys))
        case None => Failure(FeaturesFailed)
        case Some(q) =>
          var sims := Scores(q, refEmbs);
          var sel := SelectBest(sims, keys);
          if sel.Failure? then Failure(sel.error)
          else Success(MatchReply(sel.value.key, sims[sel.value.index], sims))
    }

    /** The answer fails exactly when an image cannot be fetched, the processor is missing, the
        embedding fails, there are no reference rows, or keys exist but run out before the
        arg-max. */
    lemma AnswerFailsExactly(bucket: string, s3Keys: seq<string>, m: ClipModel, p: Option<ClipProcessor>,
                             refEmbs: seq<Embedding>, keys: seq<string>)
      ensures AnswerOf(bucket, s3Keys, m, p, refEmbs, keys).Failure? <==>
        || FirstFailedFetch(bucket, s3Keys) < |s3Keys|
        || p.None?
        || embedImages(m, p.value, Images(bucket, s3Keys)).None?
        || |refEmbs| == 0
        || (keys != [] && ArgMax(Scores(embedImages(m, p.value, Images(bucket, s3Keys)).value, refEmbs)) >= |keys|)
    {
    }

    /** `match` once the bucket is known and the model and references are loaded: download and
        decode the request's images, embed them, score every reference row and select the key. */
    method Answer(bucket: string, s3Keys: seq<string>, m: ClipModel, p: Option<ClipProcessor>,
                  refEmbs: seq<Embedding>, keys: seq<string>)
      returns (r: Result<MatchReply, Exception>)
      modifies this`log
      ensures r == AnswerOf(bucket, s3Keys, m, p, refEmbs, keys)
      ensures log == old(log) + FetchEvents(bucket, s3Keys)
    {
      var images := DownloadImages(bucket, s3Keys);
      if images.Failure? {
        return Failure(images.error);
      }
      assert images.value == Images(bucket, s3Keys);
      if p.None? {
        return Failure(ProcessorNotCallable);
      }
      var query := embedImages(m, p.value, images.value);
      if query.None? {
        return Failure(FeaturesFailed);
      }
      var sims := Scores(query.value, refEmbs);
      var sel := SelectBest(sims, keys);
      if sel.Failure? {
        return Failure(sel.error);
      }
      r := Success(MatchReply(sel.value.key, sims[sel.value.index], sims));
    }

    /** POST /match: the bucket check, then `load_model`, `ensure_reference_embeddings` and the
        answer, each failure ending the request with what the earlier steps did left in place.
        Only the missing bucket is answered with status 400. */
    method Match(s3Keys: seq<string>, requestBucket: Option<string>) returns (r: Result<MatchReply, Exception>)
      modifies this`model, this`processor, this`refEmbeddings, this`refKeys, this`disk, this`log
      ensures EffectiveBucket(requestBucket, s3Bucket).None? ==>
        && r == Failure(HttpException(400, BucketMissingDetail))
        && model == old(model) && processor == old(processor) && refEmbeddings == old(refEmbeddings)
        && refKeys == old(refKeys) && disk == old(disk) && log == old(log)
      ensures EffectiveBucket(requestBucket, s3Bucket).Some? ==>
        var bucket := EffectiveBucket(requestBucket, s3Bucket).value;
        var ls := LoadModelStep(old(model), old(processor));
        && model == ls.model && processor == ls.processor
        && if ls.result.Failure? then
             && r == Failure(ls.result.error)
             && refEmbeddings == old(refEmbeddings) && refKeys == old(refKeys) && disk == old(disk)
             && log == old(log) + ls.events
           else
             var rs := ReferenceStepFrom(old(refEmbeddings), old(refKeys), old(disk));
             && refEmbeddings == rs.refEmbeddings && refKeys == rs.refKeys && disk == rs.disk
             && if rs.result.Failure? then
                  r == Failure(rs.result.error) && log == old(log) + ls.events + rs.events
                else
                  && r == AnswerOf(bucket, s3Keys, ls.result.value.0, ls.result.value.1, rs.result.value.0, rs.result.value.1)
                  && log == old(log) + ls.events + rs.events + FetchEvents(bucket, s3Keys)
      ensures r.Failure? ==> (StatusOf(r.error) == 400 <==> EffectiveBucket(requestBucket, s3Bucket).None?)
    {
      var bucket := EffectiveBucket(requestBucket, s3Bucket);
      if bucket.None? {
        return Failure(HttpException(400, BucketMissingDetail));
      }
      var loaded := LoadModel();
      if loaded.Failure? {
        return Failure(loaded.error);
      }
      var refs := EnsureReferenceEmbeddings();
      if refs.Failure? {
        return Failure(refs.error);
      }
      r := Answer(bucket.value, s3Keys, loaded.value.0, loaded.value.1, refs.value.0, refs.value.1);
    }
  }
}
