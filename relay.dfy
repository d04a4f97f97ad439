/** The relay backend (server.mjs): upload-key derivation and the `/match` handler. */
module Relay {
  import opened Common
  import opened Text

  // ---------------------------------------------------------------------------
  // Filename sanitising: `filename.replace(/\s+/g, "_")`
  // ---------------------------------------------------------------------------

  /** JavaScript's `\s`: the WhiteSpace and LineTerminator code points of ECMAScript. */
  predicate IsSpace(c: char) {
    || c == '\t' || c == '\n' || c == '\U{B}' || c == '\U{C}' || c == '\r' || c == ' '
    || c == '\U{A0}' || c == '\U{1680}' || ('\U{2000}' <= c <= '\U{200A}')
    || c == '\U{2028}' || c == '\U{2029}' || c == '\U{202F}' || c == '\U{205F}'
    || c == '\U{3000}' || c == '\U{FEFF}'
  }

  // The replace is stated for any character class `inClass` (the `[...]` of `/[...]+/g`), so
  // that the proofs below do not depend on which characters `\s` contains.

  predicate NoneIn(inClass: char -> bool, s: string) {
    forall i | 0 <= i < |s| :: !inClass(s[i])
  }

  predicate AllIn(inClass: char -> bool, s: string) {
    forall i | 0 <= i < |s| :: inClass(s[i])
  }

  /** Drops the maximal run of class characters at the head of `s`. */
  function DropRun(inClass: char -> bool, s: string): (r: string)
    ensures |r| <= |s|
    ensures s != [] && inClass(s[0]) ==> |r| < |s|
    ensures r == [] || !inClass(r[0])
  {
    if s != [] && inClass(s[0]) then DropRun(inClass, s[1..]) else s
  }

  /** The global replace: every maximal run of class characters becomes one `_`. */
  function ReplaceRuns(inClass: char -> bool, s: string): string
    decreases |s|
  {
    if s == [] then []
    else if inClass(s[0]) then "_" + ReplaceRuns(inClass, DropRun(inClass, s))
    else [s[0]] + ReplaceRuns(inClass, s[1..])
  }

  /** `filename.replace(/\s+/g, "_")`. */
  function Sanitize(s: string): string {
    ReplaceRuns(IsSpace, s)
  }

  predicate NoSpace(s: string) {
    NoneIn(IsSpace, s)
  }

  /** No class character is left after the replace, provided `_` is not one. */
  lemma {:induction false} ReplaceRunsNoneIn(inClass: char -> bool, s: string)
    requires !inClass('_')
    ensures NoneIn(inClass, ReplaceRuns(inClass, s))
    decreases |s|
  {
    if s != [] {
      if inClass(s[0]) {
        ReplaceRunsNoneIn(inClass, DropRun(inClass, s));
      } else {
        ReplaceRunsNoneIn(inClass, s[1..]);
      }
    }
  }

  /** A string without class characters is left unchanged. */
  lemma {:induction false} ReplaceRunsKeeps(inClass: char -> bool, s: string)
    requires NoneIn(inClass, s)
    ensures ReplaceRuns(inClass, s) == s
  {
    if s != [] {
      ReplaceRunsKeeps(inClass, s[1..]);
    }
  }

  /** Replacing once more changes nothing. */
  lemma ReplaceRunsIdempotent(inClass: char -> bool, s: string)
    requires !inClass('_')
    ensures ReplaceRuns(inClass, ReplaceRuns(inClass, s)) == ReplaceRuns(inClass, s)
  {
    ReplaceRunsNoneIn(inClass, s);
    ReplaceRunsKeeps(inClass, ReplaceRuns(inClass, s));
  }

  lemma {:induction false} DropRunAppend(inClass: char -> bool, a: string, t: string)
    requires t != [] && !inClass(t[0])
    ensures DropRun(inClass, a + t) == DropRun(inClass, a) + t
  {
    if a != [] {
      assert (a + t)[0] == a[0];
      if inClass(a[0]) {
        assert (a + t)[1..] == a[1..] + t;
        DropRunAppend(inClass, a[1..], t);
      }
    }
  }

  /** A character outside the class splits the replace: the parts on either side are replaced
      independently and the character is kept in place. */
  lemma {:induction false} ReplaceRunsSplit(inClass: char -> bool, a: string, x: char, b: string)
    requires !inClass(x)
    ensures ReplaceRuns(inClass, a + [x] + b) == ReplaceRuns(inClass, a) + [x] + ReplaceRuns(inClass, b)
    decreases |a|
  {
    var s := a + [x] + b;
    if a == [] {
      assert s == [x] + b && s[1..] == b;
      assert ReplaceRuns(inClass, s) == [x] + ReplaceRuns(inClass, b);
    } else if inClass(a[0]) {
      var d := DropRun(inClass, a);
      ReplaceRunsSplitRunHead(inClass, a, x, b);
      ReplaceRunsSplit(inClass, d, x, b);
      Regroup("_", ReplaceRuns(inClass, d), x, ReplaceRuns(inClass, b));
    } else {
      assert s[0] == a[0] && s[1..] == a[1..] + [x] + b;
      ReplaceRunsSplit(inClass, a[1..], x, b);
      assert ReplaceRuns(inClass, s) == [a[0]] + ReplaceRuns(inClass, a[1..] + [x] + b);
      Regroup([a[0]], ReplaceRuns(inClass, a[1..]), x, ReplaceRuns(inClass, b));
    }
  }

  lemma Regroup(p: string, q: string, x: char, r: string)
    ensures p + (q + [x] + r) == p + q + [x] + r
  {
  }

  lemma ReplaceRunsSplitRunHead(inClass: char -> bool, a: string, x: char, b: string)
    requires !inClass(x) && a != [] && inClass(a[0])
    ensures ReplaceRuns(inClass, a) == "_" + ReplaceRuns(inClass, DropRun(inClass, a))
    ensures ReplaceRuns(inClass, a + [x] + b) == "_" + ReplaceRuns(inClass, DropRun(inClass, a) + [x] + b)
  {
    var s, t := a + [x] + b, [x] + b;
    assert s[0] == a[0];
    assert s == a + t;
    DropRunAppend(inClass, a, t);
    assert DropRun(inClass, s) == DropRun(inClass, a) + t;
    assert DropRun(inClass, a) + t == DropRun(inClass, a) + [x] + b;
  }

  lemma {:induction false} DropRunOfRun(inClass: char -> bool, w: string, b: string)
    requires AllIn(inClass, w)
    requires b == [] || !inClass(b[0])
    ensures DropRun(inClass, w + b) == b
  {
    if w != [] {
      assert (w + b)[0] == w[0] && (w + b)[1..] == w[1..] + b;
      DropRunOfRun(inClass, w[1..], b);
    }
  }

  /** Each maximal run of class characters, wherever it stands, becomes exactly one `_`. */
  lemma ReplaceRunsRun(inClass: char -> bool, a: string, w: string, b: string)
    requires w != [] && AllIn(inClass, w)
    requires a == [] || !inClass(a[|a| - 1])
    requires b == [] || !inClass(b[0])
    ensures ReplaceRuns(inClass, a + w + b) == ReplaceRuns(inClass, a) + "_" + ReplaceRuns(inClass, b)
  {
    if a == [] {
      assert a + w + b == w + b;
      ReplaceRunsRunHead(inClass, w, b);
    } else {
      ReplaceRunsRunInside(inClass, a, w, b);
    }
  }

  lemma ReplaceRunsRunInside(inClass: char -> bool, a: string, w: string, b: string)
    requires w != [] && AllIn(inClass, w)
    requires a != [] && !inClass(a[|a| - 1])
    requires b == [] || !inClass(b[0])
    ensures ReplaceRuns(inClass, a + w + b) == ReplaceRuns(inClass, a) + "_" + ReplaceRuns(inClass, b)
  {
    var a', x := a[..|a| - 1], a[|a| - 1];
    assert a' + [x] == a;
    ReplaceRunsRunAfter(inClass, a', x, w, b);
    ReplaceRunsSnoc(inClass, a', x);
  }

  lemma ReplaceRunsSnoc(inClass: char -> bool, a: string, x: char)
    requires !inClass(x)
    ensures ReplaceRuns(inClass, a + [x]) == ReplaceRuns(inClass, a) + [x]
  {
    assert a + [x] == a + [x] + [];
    ReplaceRunsSplit(inClass, a, x, []);
  }

  lemma ReplaceRunsRunAfter(inClass: char -> bool, a: string, x: char, w: string, b: string)
    requires !inClass(x) && w != [] && AllIn(inClass, w)
    requires b == [] || !inClass(b[0])
    ensures ReplaceRuns(inClass, a + [x] + w + b) == ReplaceRuns(inClass, a) + [x] + "_" + ReplaceRuns(inClass, b)
  {
    assert a + [x] + w + b == a + [x] + (w + b);
    ReplaceRunsSplit(inClass, a, x, w + b);
    ReplaceRunsRunHead(inClass, w, b);
  }

  lemma ReplaceRunsRunHead(inClass: char -> bool, w: string, b: string)
    requires w != [] && AllIn(inClass, w)
    requires b == [] || !inClass(b[0])
    ensures ReplaceRuns(inClass, w + b) == "_" + ReplaceRuns(inClass, b)
  {
    DropRunOfRun(inClass, w, b);
    assert (w + b)[0] == w[0];
  }

  // ---------------------------------------------------------------------------
  // Upload keys: `uploads/${Date.now()}_${safe}`
  // ---------------------------------------------------------------------------

  const UploadPrefix: string := "uploads/"

  /** The storage key of an upload made at millisecond `ts`. */
  function UploadKey(ts: nat, filename: string): string {
    UploadPrefix + Decimal(ts) + "_" + Sanitize(filename)
  }

  /** Reads a key back into its timestamp and sanitised filename; None for anything
      `UploadKey` cannot produce. */
  function ParseUploadKey(key: string): Option<(nat, string)> {
    if |key| < |UploadPrefix| || key[..|UploadPrefix|] != UploadPrefix then None
    else
      var rest := key[|UploadPrefix|..];
      var i := IndexOf(rest, '_');
      if i == |rest| then None
      else if IsCanonicalDecimal(rest[..i]) && NoSpace(rest[i + 1..]) then
        Some((DecimalValue(rest[..i]), rest[i + 1..]))
      else None
  }

  lemma {:induction false} IndexOfAfterDigits(d: string, t: string)
    requires AllDigits(d)
    ensures IndexOf(d + "_" + t, '_') == |d|
  {
    if d != [] {
      assert (d + "_" + t)[0] == d[0];
      assert (d + "_" + t)[1..] == d[1..] + "_" + t;
      IndexOfAfterDigits(d[1..], t);
    }
  }

  /** Parsing an upload key gives back its timestamp and the sanitised filename. */
  lemma ParseUploadKeyRoundTrip(ts: nat, filename: string)
    ensures ParseUploadKey(UploadKey(ts, filename)) == Some((ts, Sanitize(filename)))
  {
    var d, s := Decimal(ts), Sanitize(filename);
    var key := UploadKey(ts, filename);
    assert key[..|UploadPrefix|] == UploadPrefix;
    var rest := key[|UploadPrefix|..];
    assert rest == d + "_" + s;
    IndexOfAfterDigits(d, s);
    assert rest[..|d|] == d && rest[|d| + 1..] == s;
    ReplaceRunsNoneIn(IsSpace, filename);
    DecimalRoundTrip(ts);
  }

  /** Every key that parses is the upload key of what it parses to. */
  lemma ParseUploadKeySound(key: string)
    requires ParseUploadKey(key).Some?
    ensures var (ts, safe) := ParseUploadKey(key).value; key == UploadKey(ts, safe)
  {
    var rest := key[|UploadPrefix|..];
    var i := IndexOf(rest, '_');
    var d, safe := rest[..i], rest[i + 1..];
    assert IsCanonicalDecimal(d) && NoSpace(safe);
    assert ParseUploadKey(key).value == (DecimalValue(d), safe);
    CanonicalRoundTrip(d);
    ReplaceRunsKeeps(IsSpace, safe);
    UploadKeyParts(key, i);
  }

  /** A key with the upload prefix is the prefix, the text before the first `_` after it, the
      `_`, and the rest. */
  lemma UploadKeyParts(key: string, i: nat)
    requires |UploadPrefix| <= |key| && key[..|UploadPrefix|] == UploadPrefix
    requires i < |key[|UploadPrefix|..]| && key[|UploadPrefix|..][i] == '_'
    ensures var rest := key[|UploadPrefix|..]; key == UploadPrefix + rest[..i] + "_" + rest[i + 1..]
  {
    var rest := key[|UploadPrefix|..];
    assert rest == rest[..i] + "_" + rest[i + 1..];
    assert key == key[..|UploadPrefix|] + rest;
  }

  /** Two uploads get the same key exactly when their timestamps agree and their
      filenames sanitise to the same string. */
  lemma UploadKeyCollides(t1: nat, f1: string, t2: nat, f2: string)
    ensures UploadKey(t1, f1) == UploadKey(t2, f2) <==> t1 == t2 && Sanitize(f1) == Sanitize(f2)
  {
    ParseUploadKeyRoundTrip(t1, f1);
    ParseUploadKeyRoundTrip(t2, f2);
  }

  /** Keys are not unique: two different files uploaded in the same millisecond can
      share one key. */
  lemma UploadKeyNotUnique(ts: nat)
    ensures "a b.jpg" != "a_b.jpg"
    ensures UploadKey(ts, "a b.jpg") == UploadKey(ts, "a_b.jpg")
  {
    assert "a b.jpg"[1] != "a_b.jpg"[1];
    assert "a b.jpg" == "a" + " " + "b.jpg";
    ReplaceRunsRun(IsSpace, "a", " ", "b.jpg");
    assert "a_b.jpg" == "a" + ['_'] + "b.jpg";
    ReplaceRunsSplit(IsSpace, "a", '_', "b.jpg");
  }

  /** Within one batch, two keys coincide exactly when the two files share a timestamp and
      sanitise to the same name; distinct names alone do not keep keys apart. */
  lemma UploadKeysDistinct(files: seq<UploadedFile>, stamps: seq<nat>)
    requires |stamps| == |files|
    ensures var keys := UploadKeys(files, stamps);
      (forall i, j | 0 <= i < j < |files| :: keys[i] != keys[j]) <==>
      (forall i, j | 0 <= i < j < |files| ::
         stamps[i] != stamps[j] || Sanitize(files[i].originalName) != Sanitize(files[j].originalName))
  {
    forall i, j | 0 <= i < j < |files| {
      UploadKeyCollides(stamps[i], files[i].originalName, stamps[j], files[j].originalName);
    }
  }

  // ---------------------------------------------------------------------------
  // The `/match` handler
  // ---------------------------------------------------------------------------

  /** A multipart part under the `images` field. */
  datatype UploadedFile = UploadedFile(originalName: string, buffer: Bytes, mimeType: string)

  /** An object as the storage service keeps it after `putObject`. */
  datatype StoredObject = StoredObject(body: Bytes, contentType: string, acl: string)

  /** The matching service's JSON answer: its `best_match_key` and the rest of the object,
      which the relay passes on untouched. */
  datatype MatchResult = MatchResult(bestMatchKey: Option<string>, raw: string)

  /** What awaiting `fetch` gives: a rejection with its message, or a response with its `ok`
      flag, its body as text, and the outcome of parsing that body as JSON. */
  datatype MatcherReply =
    | Unreachable(message: string)
    | Replied(ok: bool, text: string, json: Result<MatchResult, string>)

  /** Requests the relay sends to its collaborators. */
  datatype Call =
    | PutObject(bucket: Option<string>, key: string, contentType: string, acl: string)
    | PostMatch(url: string, keys: seq<string>, bucket: Option<string>)
    | Presign(bucket: Option<string>, key: string, expires: nat)

  /** The JSON replies of the handler. */
  datatype Response =
    | BadRequest(error: string)
    | BadGateway(error: string, detail: string)
    | InternalError(error: string, message: string)
    | NotMatched(result: MatchResult)
    | Matched(modelUrl: string, raw: MatchResult)

  function Status(r: Response): nat {
    match r
    case BadRequest(_) => 400
    case BadGateway(_, _) => 502
    case InternalError(_, _) => 500
    case NotMatched(_) => 200
    case Matched(_, _) => 200
  }

  const NoImagesError := "No images provided"
  const ModelServerError := "Model server error"
  const InternalErrorTag := "internal_server_error"
  const PrivateAcl := "private"
  const DefaultPresignExpiry: nat := 3600
  const DefaultModelServerUrl := "http://127.0.0.1:5001"

  /** `MODEL_SERVER_URL`, or the loopback default when it is unset or empty. */
  function ModelServerUrl(env: Option<string>): (url: string)
    ensures Truthy(env) ==> url == env.value
    ensures !Truthy(env) ==> url == DefaultModelServerUrl
    ensures url != ""
  {
    if Truthy(env) then env.value else DefaultModelServerUrl
  }

  /** The keys of a batch, one per file, in submission order. */
  function UploadKeys(files: seq<UploadedFile>, stamps: seq<nat>): (keys: seq<string>)
    requires |stamps| == |files|
    ensures |keys| == |files|
    ensures forall i | 0 <= i < |files| :: keys[i] == UploadKey(stamps[i], files[i].originalName)
  {
    seq(|files|, i requires 0 <= i < |files| => UploadKey(stamps[i], files[i].originalName))
  }

  function ObjectOf(f: UploadedFile): StoredObject {
    StoredObject(f.buffer, f.mimeType, PrivateAcl)
  }

  /** The first position whose write fails, or |keys| when none does. */
  function FirstFault(fault: string -> Option<string>, keys: seq<string>): (k: nat)
    ensures k <= |keys|
    ensures forall i | 0 <= i < k :: fault(keys[i]).None?
    ensures k < |keys| ==> fault(keys[k]).Some?
  {
    if keys == [] then 0
    else if fault(keys[0]).Some? then 0
    else 1 + FirstFault(fault, keys[1..])
  }

  /** Storage after the first `n` files of a batch were written, one after the other. */
  function Stored(storage: map<string, StoredObject>, files: seq<UploadedFile>, keys: seq<string>, n: nat)
    : map<string, StoredObject>
    requires |keys| == |files| && n <= |files|
  {
    if n == 0 then storage else Stored(storage, files, keys, n - 1)[keys[n - 1] := ObjectOf(files[n - 1])]
  }

  /** The storage writes of the first `n` files of a batch. */
  function PutCalls(bucket: Option<string>, files: seq<UploadedFile>, keys: seq<string>, n: nat): (calls: seq<Call>)
    requires |keys| == |files| && n <= |files|
    ensures |calls| == n
  {
    if n == 0 then [] else PutCalls(bucket, files, keys, n - 1) + [PutObject(bucket, keys[n - 1], files[n - 1].mimeType, PrivateAcl)]
  }

  /** A file whose key no later file of the batch reuses is in storage under that key. */
  lemma {:induction false} StoredLastWrite(storage: map<string, StoredObject>, files: seq<UploadedFile>,
                                           keys: seq<string>, n: nat, i: nat)
    requires |keys| == |files| && i < n <= |files|
    requires forall j | i < j < n :: keys[j] != keys[i]
    ensures keys[i] in Stored(storage, files, keys, n)
    ensures Stored(storage, files, keys, n)[keys[i]] == ObjectOf(files[i])
  {
    if i < n - 1 {
      StoredLastWrite(storage, files, keys, n - 1, i);
    }
  }

  /** Keys the batch does not write keep what storage held before. */
  lemma {:induction false} StoredElsewhere(storage: map<string, StoredObject>, files: seq<UploadedFile>,
                                           keys: seq<string>, n: nat, k: string)
    requires |keys| == |files| && n <= |files|
    requires forall j | 0 <= j < n :: keys[j] != k
    ensures k in Stored(storage, files, keys, n) <==> k in storage
    ensures k in storage ==> Stored(storage, files, keys, n)[k] == storage[k]
  {
    if n > 0 {
      StoredElsewhere(storage, files, keys, n - 1, k);
    }
  }

  /** Two files named "a b.jpg" and "a_b.jpg" uploaded in the same millisecond get one key:
      the second write replaces the first file's object. */
  lemma CollidingBatchOverwrites(storage: map<string, StoredObject>, ts: nat, b1: Bytes, b2: Bytes, mime: string)
    ensures var files := [UploadedFile("a b.jpg", b1, mime), UploadedFile("a_b.jpg", b2, mime)];
      var keys := UploadKeys(files, [ts, ts]);
      && keys[0] == keys[1]
      && Stored(storage, files, keys, 2)[keys[0]] == StoredObject(b2, mime, PrivateAcl)
  {
    var files := [UploadedFile("a b.jpg", b1, mime), UploadedFile("a_b.jpg", b2, mime)];
    var keys := UploadKeys(files, [ts, ts]);
    UploadKeyNotUnique(ts);
    StoredLastWrite(storage, files, keys, 2, 1);
  }

  /** The relay: its configuration, its collaborators (as functions of the request they are
      sent) and the state it changes, the bucket contents and the log of calls it made. */
  class RelayServer {
    const bucket: Option<string>
    const matchUrl: string
    /** The error `putObject` rejects with for a key, if it does. */
    const putFault: string -> Option<string>
    const matcher: (seq<string>, Option<string>) -> MatcherReply
    const presigner: (Option<string>, string, nat) -> Result<string, string>
    var storage: map<string, StoredObject>
    var calls: seq<Call>

    constructor (bucket: Option<string>, modelServerEnv: Option<string>, putFault: string -> Option<string>,
                 matcher: (seq<string>, Option<string>) -> MatcherReply,
                 presigner: (Option<string>, string, nat) -> Result<string, string>,
                 storage: map<string, StoredObject>)
      ensures this.bucket == bucket && matchUrl == ModelServerUrl(modelServerEnv) + "/match"
      ensures this.putFault == putFault && this.matcher == matcher && this.presigner == presigner
      ensures this.storage == storage && calls == []
    {
      this.bucket := bucket;
      this.matchUrl := ModelServerUrl(modelServerEnv) + "/match";
      this.putFault := putFault;
      this.matcher := matcher;
      this.presigner := presigner;
      this.storage := storage;
      this.calls := [];
    }

    /** A private write of one object; storage changes only when the write succeeds. */
    method UploadBufferToS3(buffer: Bytes, key: string, contentType: string) returns (fault: Option<string>)
      modifies this`storage, this`calls
      ensures calls == old(calls) + [PutObject(bucket, key, contentType, PrivateAcl)]
      ensures fault == putFault(key)
      ensures fault.None? ==> storage == old(storage)[key := StoredObject(buffer, contentType, PrivateAcl)]
      ensures fault.Some? ==> storage == old(storage)
    {
      calls := calls + [PutObject(bucket, key, contentType, PrivateAcl)];
      fault := putFault(key);
      if fault.None? {
        storage := storage[key := StoredObject(buffer, contentType, PrivateAcl)];
      }
    }

    /** A presigned read URL for `key`, valid for `expires` seconds (an hour by default). */
    method PresignedUrlForKey(key: string, expires: nat := DefaultPresignExpiry) returns (url: Result<string, string>)
      modifies this`calls
      ensures calls == old(calls) + [Presign(bucket, key, expires)]
      ensures url == presigner(bucket, key, expires)
    {
      calls := calls + [Presign(bucket, key, expires)];
      url := presigner(bucket, key, expires);
    }

    /** What the handler does once the keys were posted: `sent` is the call log up to and
        including the post, `after` the log at the end. */
    predicate Relays(reply: MatcherReply, sent: seq<Call>, after: seq<Call>, resp: Response) {
      match reply
      case Unreachable(m) => after == sent && resp == InternalError(InternalErrorTag, m)
      case Replied(ok, text, json) =>
        if !ok then after == sent && resp == BadGateway(ModelServerError, text)
        else match json
          case Failure(m) => after == sent && resp == InternalError(InternalErrorTag, m)
          case Success(result) =>
            if !Truthy(result.bestMatchKey) then after == sent && resp == NotMatched(result)
            else
              var key := result.bestMatchKey.value;
              && after == sent + [Presign(bucket, key, DefaultPresignExpiry)]
              && match presigner(bucket, key, DefaultPresignExpiry)
                 case Failure(m) => resp == InternalError(InternalErrorTag, m)
                 case Success(url) => resp == Matched(url, result)
    }

    /** The loop of the handler: writes the files one after the other, in submission order,
        under their keys, and stops at the first write that fails. The clock readings are
        inputs, so the keys are the same whether each is made just before its write or all
        before the first. */
    method UploadBatch(files: seq<UploadedFile>, keys: seq<string>) returns (s3Keys: seq<string>, fault: Option<string>)
      requires |keys| == |files|
      modifies this`storage, this`calls
      ensures var k := FirstFault(putFault, keys);
        && storage == Stored(old(storage), files, keys, k)
        && (k < |keys| ==> fault == putFault(keys[k]) && calls == old(calls) + PutCalls(bucket, files, keys, k + 1))
        && (k == |keys| ==> fault == None && calls == old(calls) + PutCalls(bucket, files, keys, k) && s3Keys == keys)
    {
      ghost var k := FirstFault(putFault, keys);
      s3Keys := [];
      var i := 0;
      while i < |files|
        invariant 0 <= i <= k
        invariant s3Keys == keys[..i]
        invariant storage == Stored(old(storage), files, keys, i)
        invariant calls == old(calls) + PutCalls(bucket, files, keys, i)
      {
        fault := UploadBufferToS3(files[i].buffer, keys[i], files[i].mimeType);
        if fault.Some? {
          assert k == i by {
            assert !(i < k);
          }
          return;
        }
        TakeOneMore(keys, i);
        s3Keys := s3Keys + [keys[i]];
        i := i + 1;
      }
      assert keys[..i] == keys;
      fault := None;
    }

    /** The part of the handler after the uploads: post the keys, then branch on the reply. */
    method RelayMatch(s3Keys: seq<string>) returns (resp: Response)
      modifies this`calls
      ensures Relays(matcher(s3Keys, bucket), old(calls) + [PostMatch(matchUrl, s3Keys, bucket)], calls, resp)
    {
      calls := calls + [PostMatch(matchUrl, s3Keys, bucket)];
      var reply := matcher(s3Keys, bucket);
      match reply {
        case Unreachable(m) =>
          return InternalError(InternalErrorTag, m);
        case Replied(ok, text, json) =>
          if !ok {
            return BadGateway(ModelServerError, text);
          }
          match json {
            case Failure(m) =>
              return InternalError(InternalErrorTag, m);
            case Success(result) =>
              if !Truthy(result.bestMatchKey) {
                return NotMatched(result);
              }
              var presigned := PresignedUrlForKey(result.bestMatchKey.value, 3600);
              match presigned {
                case Failure(m) => return InternalError(InternalErrorTag, m);
                case Success(url) => return Matched(url, result);
              }
          }
      }
    }

    /** POST /match. `stamps[i]` is the clock reading taken when the i-th file's key is made. */
    method HandleMatch(files: Option<seq<UploadedFile>>, stamps: seq<nat>) returns (resp: Response)
      requires files.Some? ==> |stamps| == |files.value|
      modifies this`storage, this`calls
      ensures files.None? || files.value == [] ==>
        resp == BadRequest(NoImagesError) && storage == old(storage) && calls == old(calls)
      ensures files.Some? && files.value != [] ==>
        var keys := UploadKeys(files.value, stamps);
        var k := FirstFault(putFault, keys);
        && storage == Stored(old(storage), files.value, keys, k)
        && (k < |keys| ==>
              && calls == old(calls) + PutCalls(bucket, files.value, keys, k + 1)
              && resp == InternalError(InternalErrorTag, putFault(keys[k]).value))
        && (k == |keys| ==>
              Relays(matcher(keys, bucket),
                     old(calls) + PutCalls(bucket, files.value, keys, k) + [PostMatch(matchUrl, keys, bucket)],
                     calls, resp))
    {
      if files.None? || |files.value| == 0 {
        return BadRequest(NoImagesError);
      }
      var keys := UploadKeys(files.value, stamps);
      var s3Keys, fault := UploadBatch(files.value, keys);
      if fault.Some? {
        return InternalError(InternalErrorTag, fault.value);
      }
      resp := RelayMatch(s3Keys);
    }
  }

  /** The handler presigns a key exactly when the matching service answered ok with a
      truthy `best_match_key`, and then exactly that key, for an hour. */
  lemma PresignOnlyOnMatch(server: RelayServer, reply: MatcherReply, sent: seq<Call>, after: seq<Call>, resp: Response)
    requires server.Relays(reply, sent, after, resp)
    ensures after != sent <==> reply.Replied? && reply.ok && reply.json.Success? && Truthy(reply.json.value.bestMatchKey)
    ensures after != sent ==> after == sent + [Presign(server.bucket, reply.json.value.bestMatchKey.value, 3600)]
    ensures resp.Matched? ==> after != sent && resp.raw == reply.json.value
  {
  }

  /** The status of every reply after the post: 502 exactly for a non-ok response, 200 only
      for a parsed answer, 500 otherwise. */
  lemma RelayStatus(server: RelayServer, reply: MatcherReply, sent: seq<Call>, after: seq<Call>, resp: Response)
    requires server.Relays(reply, sent, after, resp)
    ensures Status(resp) == 502 <==> reply.Replied? && !reply.ok
    ensures Status(resp) == 200 ==> reply.Replied? && reply.ok && reply.json.Success?
    ensures resp.NotMatched? <==> reply.Replied? && reply.ok && reply.json.Success? && !Truthy(reply.json.value.bestMatchKey)
    ensures resp.BadGateway? ==> resp.detail == reply.text
  {
  }
}
