/** The reference builder (build_and_upload_embeddings.py): which entries of the reference folder
    become references, in which order, under which model key, and what is saved and uploaded. */
module ReferenceBuild {
  import opened Common
  import opened Text

  // ---------------------------------------------------------------------------
  // Which files are references
  // ---------------------------------------------------------------------------

  /** `fname.lower().endswith((".png", ".jpg", ".jpeg"))`. */
  predicate HasImageExtension(name: string) {
    var l := Lower(name);
    EndsWith(l, ".png") || EndsWith(l, ".jpg") || EndsWith(l, ".jpeg")
  }

  /** The references in listing order: the entries with an image extension. */
  function ImageNames(s: seq<string>): seq<string> {
    if s == [] then []
    else ImageNames(s[..|s| - 1]) + (if HasImageExtension(s[|s| - 1]) then [s[|s| - 1]] else [])
  }

  /** An entry is a reference exactly when it is listed and has an image extension. */
  lemma {:induction false} ImageNamesMembers(s: seq<string>, x: string)
    ensures x in ImageNames(s) <==> x in s && HasImageExtension(x)
  {
    if s != [] {
      ImageNamesMembers(s[..|s| - 1], x);
      assert s == s[..|s| - 1] + [s[|s| - 1]];
    }
  }

  /** Filtering keeps the prefix structure: the references among the first `i` entries come
      first among all references. */
  lemma {:induction false} ImageNamesPrefix(s: seq<string>, i: nat)
    requires i <= |s|
    ensures |ImageNames(s[..i])| <= |ImageNames(s)|
    ensures ImageNames(s)[..|ImageNames(s[..i])|] == ImageNames(s[..i])
    decreases |s| - i
  {
    if i < |s| {
      ImageNamesPrefix(s, i + 1);
      assert s[..i + 1][..i] == s[..i];
    } else {
      assert s[..i] == s;
    }
  }

  lemma ImageNamesStep(s: seq<string>, i: nat)
    requires i < |s|
    ensures ImageNames(s[..i + 1]) == ImageNames(s[..i]) + (if HasImageExtension(s[i]) then [s[i]] else [])
  {
    assert s[..i + 1][..i] == s[..i];
  }

  // ---------------------------------------------------------------------------
  // `sorted(...)`: Python's order on str
  // ---------------------------------------------------------------------------

  predicate Sorted(s: seq<string>) {
    forall i, j | 0 <= i < j < |s| :: StrLe(s[i], s[j])
  }

  function Insert(x: string, s: seq<string>): (r: seq<string>)
    requires Sorted(s)
    ensures Sorted(r) && multiset(r) == multiset(s) + multiset{x}
  {
    if s == [] then [x]
    else if StrLe(x, s[0]) then
      assert forall j | 0 <= j < |s| :: StrLe(x, s[j]) by {
        forall j | 0 <= j < |s| ensures StrLe(x, s[j]) {
          if j > 0 { StrLeTransitive(x, s[0], s[j]); }
        }
      }
      [x] + s
    else
      StrLeTotal(x, s[0]);
      var t := Insert(x, s[1..]);
      assert s == [s[0]] + s[1..];
      assert forall j | 0 <= j < |t| :: StrLe(s[0], t[j]) by {
        forall j | 0 <= j < |t| ensures StrLe(s[0], t[j]) {
          assert t[j] in multiset(t);
          if t[j] != x {
            assert t[j] in multiset(s[1..]);
            var k :| 0 <= k < |s[1..]| && s[1..][k] == t[j];
            assert s[k + 1] == t[j];
          }
        }
      }
      [s[0]] + t
  }

  /** `sorted(names)`. */
  function SortNames(s: seq<string>): (r: seq<string>)
    ensures Sorted(r) && multiset(r) == multiset(s)
  {
    if s == [] then []
    else
      assert s == [s[0]] + s[1..];
      Insert(s[0], SortNames(s[1..]))
  }

  /** Python's order on str is total and antisymmetric, so the sorted arrangement of a listing
      is the only one: any sorted permutation of it equals `SortNames`. */
  lemma {:induction false} SortedPermutationUnique(a: seq<string>, b: seq<string>)
    requires Sorted(a) && Sorted(b) && multiset(a) == multiset(b)
    ensures a == b
    decreases |a|
  {
    if a != [] {
      assert |b| == |multiset(b)| == |multiset(a)| == |a|;
      SortedHeadIsLeast(a, b[0]);
      SortedHeadIsLeast(b, a[0]);
      StrLeAntisymmetric(a[0], b[0]);
      SameTail(a, b);
      SortedPermutationUnique(a[1..], b[1..]);
      assert a == [a[0]] + a[1..] && b == [b[0]] + b[1..];
    }
  }

  lemma SortedHeadIsLeast(a: seq<string>, x: string)
    requires Sorted(a) && x in multiset(a)
    ensures a != [] && StrLe(a[0], x)
  {
    var i :| 0 <= i < |a| && a[i] == x;
    if i == 0 {
      StrLeReflexive(x);
    }
  }

  lemma SameTail(a: seq<string>, b: seq<string>)
    requires a != [] && b != [] && a[0] == b[0] && multiset(a) == multiset(b)
    ensures multiset(a[1..]) == multiset(b[1..])
  {
    assert a == [a[0]] + a[1..] && b == [b[0]] + b[1..];
    assert multiset(a[1..]) == multiset(a) - multiset{a[0]};
    assert multiset(b[1..]) == multiset(b) - multiset{b[0]};
  }

  /** Filtering a sorted listing gives a sorted list. */
  lemma {:induction false} ImageNamesSorted(s: seq<string>)
    requires Sorted(s)
    ensures Sorted(ImageNames(s))
  {
    if s != [] {
      var init, last := s[..|s| - 1], s[|s| - 1];
      assert Sorted(init);
      ImageNamesSorted(init);
      var f := ImageNames(init);
      forall i | 0 <= i < |f| ensures StrLe(f[i], last) {
        ImageNamesMembers(init, f[i]);
        var k :| 0 <= k < |init| && init[k] == f[i];
      }
    }
  }

  /** The references in the order the builder visits them. */
  function Accepted(listing: seq<string>): seq<string> {
    ImageNames(SortNames(listing))
  }

  /** The references are the image entries of the listing, in Python's sorted order. */
  lemma AcceptedSpec(listing: seq<string>)
    ensures Sorted(Accepted(listing))
    ensures forall x :: x in Accepted(listing) <==> x in listing && HasImageExtension(x)
  {
    ImageNamesSorted(SortNames(listing));
    forall x ensures x in Accepted(listing) <==> x in listing && HasImageExtension(x) {
      ImageNamesMembers(SortNames(listing), x);
      assert x in SortNames(listing) <==> x in multiset(SortNames(listing));
    }
  }

  // ---------------------------------------------------------------------------
  // `os.path.splitext` and the model key
  // ---------------------------------------------------------------------------

  predicate HasNonDot(s: string) {
    exists i | 0 <= i < |s| :: s[i] != '.'
  }

  /** `os.path.splitext` on POSIX paths: split before the last dot of the last path component,
      unless everything before that dot in the component is dots (`.png`, `..png`). */
  function SplitExt(p: string): (string, string) {
    var sep := LastIndexOf(p, '/');
    var dot := LastIndexOf(p, '.');
    if dot > sep && HasNonDot(p[sep + 1..dot]) then (p[..dot], p[dot..]) else (p, "")
  }

  /** The two parts make up the path again, and the extension is empty or a dot followed by
      neither a dot nor a separator. */
  lemma SplitExtParts(p: string)
    ensures SplitExt(p).0 + SplitExt(p).1 == p
    ensures SplitExt(p).1 == [] || SplitExt(p).1[0] == '.'
    ensures forall i | 1 <= i < |SplitExt(p).1| :: SplitExt(p).1[i] != '.' && SplitExt(p).1[i] != '/'
  {
    var sep := LastIndexOf(p, '/');
    var dot := LastIndexOf(p, '.');
    if dot > sep && HasNonDot(p[sep + 1..dot]) {
      assert SplitExt(p) == (p[..dot], p[dot..]);
      assert p[..dot] + p[dot..] == p;
      LastComponentTail(p, sep, dot);
    } else {
      assert SplitExt(p) == (p, "");
    }
  }

  lemma LastComponentTail(p: string, sep: int, dot: int)
    requires -1 <= sep < dot < |p|
    requires forall j | sep < j < |p| :: p[j] != '/'
    requires forall j | dot < j < |p| :: p[j] != '.'
    ensures forall i | 1 <= i < |p[dot..]| :: p[dot..][i] != '.' && p[dot..][i] != '/'
  {
    forall i | 1 <= i < |p[dot..]| ensures p[dot..][i] != '.' && p[dot..][i] != '/' {
      assert p[dot..][i] == p[dot + i];
    }
  }

  /** `f"models/{os.path.splitext(fname)[0]}.glb"`. */
  function ModelKey(name: string): string {
    "models/" + SplitExt(name).0 + ".glb"
  }

  /** A file name of a stem that is not all dots and an extension splits into exactly those. */
  lemma SplitExtOfStem(stem: string, ext: string)
    requires '/' !in stem && HasNonDot(stem)
    requires |ext| > 0 && ext[0] == '.'
    requires forall i | 1 <= i < |ext| :: ext[i] != '.' && ext[i] != '/'
    ensures SplitExt(stem + ext) == (stem, ext)
  {
    var p := stem + ext;
    var sep, dot := LastIndexOf(p, '/'), LastIndexOf(p, '.');
    assert p[|stem|] == '.';
    assert forall j | |stem| < j < |p| :: p[j] == ext[j - |stem|];
    assert forall j | 0 <= j < |stem| :: p[j] == stem[j];
    assert dot == |stem|;
    assert sep == -1;
    assert p[sep + 1..dot] == stem;
    assert p[..dot] == stem && p[dot..] == ext;
  }

  /** A stem made only of dots (possibly none) is not split off: `.png`, `..jpg` and `.JPEG`
      stay whole, and the model key keeps the extension. */
  lemma DotStemKeepsExtension(stem: string, ext: string)
    requires '/' !in stem && !HasNonDot(stem)
    requires |ext| > 0 && ext[0] == '.'
    requires forall i | 1 <= i < |ext| :: ext[i] != '.' && ext[i] != '/'
    ensures SplitExt(stem + ext) == (stem + ext, "")
    ensures ModelKey(stem + ext) == "models/" + stem + ext + ".glb"
  {
    var p := stem + ext;
    assert forall j | 0 <= j < |stem| :: p[j] == stem[j];
    assert forall j | |stem| <= j < |p| :: p[j] == ext[j - |stem|];
    assert p[|stem|] == '.';
    assert LastIndexOf(p, '.') == |stem|;
    assert LastIndexOf(p, '/') == -1;
    assert p[0..|stem|] == stem;
  }

  /** The characters the extension test can match come only from the same characters in
      either case. */
  lemma LowerCharIsLetterOrDot(c: char)
    ensures LowerChar(c) == '.' ==> c == '.'
    ensures LowerChar(c) in "pngje" ==> c != '.' && c != '/'
  {
  }

  /** The extension matched, in its original case. */
  function ImageExtensionLength(name: string): nat {
    if EndsWith(Lower(name), ".jpeg") then 5 else 4
  }

  /** An image file whose stem is not all dots gets the model key of its stem, case kept. */
  lemma ModelKeyOfImage(name: string)
    requires HasImageExtension(name) && '/' !in name
    requires HasNonDot(name[..|name| - ImageExtensionLength(name)])
    ensures ModelKey(name) == "models/" + name[..|name| - ImageExtensionLength(name)] + ".glb"
  {
    var n := ImageExtensionLength(name);
    ImageExtensionShape(name);
    SplitExtAt(name, |name| - n);
  }

  /** A name without separators, cut where a dot is followed only by letters, splits there. */
  lemma SplitExtAt(name: string, k: nat)
    requires k < |name| && '/' !in name && name[k] == '.'
    requires HasNonDot(name[..k])
    requires forall i | k < i < |name| :: name[i] != '.' && name[i] != '/'
    ensures SplitExt(name) == (name[..k], name[k..])
  {
    var stem, ext := name[..k], name[k..];
    forall i | 0 <= i < |stem| ensures stem[i] != '/' {
      assert stem[i] == name[i];
    }
    forall i | 1 <= i < |ext| ensures ext[i] != '.' && ext[i] != '/' {
      assert ext[i] == name[k + i];
    }
    SplitExtOfStem(stem, ext);
    assert stem + ext == name;
  }

  /** The matched extension, in its original case, is a dot followed by letters. */
  lemma ImageExtensionShape(name: string)
    requires HasImageExtension(name)
    ensures ImageExtensionLength(name) <= |name|
    ensures name[|name| - ImageExtensionLength(name)] == '.'
    ensures forall i | |name| - ImageExtensionLength(name) < i < |name| :: name[i] != '.' && name[i] != '/'
  {
    var n := ImageExtensionLength(name);
    var l := Lower(name);
    assert l[|l| - n..] in {".png", ".jpg", ".jpeg"};
    assert LowerChar(name[|name| - n]) == l[|l| - n..][0];
    LowerCharIsLetterOrDot(name[|name| - n]);
    forall i | |name| - n < i < |name| ensures name[i] != '.' && name[i] != '/' {
      assert LowerChar(name[i]) == l[|l| - n..][i - (|name| - n)];
      LowerCharIsLetterOrDot(name[i]);
    }
  }

  /** A name that is all dots before its extension keeps the extension in its key: `.png` is an
      image file whose model key is `models/.png.glb`. */
  lemma LeadingDotNameKeepsExtension()
    ensures HasImageExtension(".png")
    ensures ModelKey(".png") == "models/.png.glb"
  {
    var p := ".png";
    assert forall j | 0 < j < |p| :: p[j] != '.' && p[j] != '/';
    assert p[0] == '.';
    assert LastIndexOf(p, '/') == -1;
    assert LastIndexOf(p, '.') == 0;
    assert Lower(p) == p;
  }

  /** Two reference images whose names differ only in their extension name the same model:
      `a.png` and `a.JPG` are both stored under `models/a.glb`. */
  lemma ModelKeyShared(stem: string, ext1: string, ext2: string)
    requires '/' !in stem && HasNonDot(stem)
    requires |ext1| > 0 && ext1[0] == '.' && |ext2| > 0 && ext2[0] == '.'
    requires forall i | 1 <= i < |ext1| :: ext1[i] != '.' && ext1[i] != '/'
    requires forall i | 1 <= i < |ext2| :: ext2[i] != '.' && ext2[i] != '/'
    ensures ModelKey(stem + ext1) == ModelKey(stem + ext2) == "models/" + stem + ".glb"
  {
    SplitExtOfStem(stem, ext1);
    SplitExtOfStem(stem, ext2);
  }

  // ---------------------------------------------------------------------------
  // The reference loop of `main`
  // ---------------------------------------------------------------------------

  /** `f"models/{stem}.glb"` for every reference, in order. */
  function ModelKeys(names: seq<string>): (keys: seq<string>)
    ensures |keys| == |names|
    ensures forall i | 0 <= i < |names| :: keys[i] == ModelKey(names[i])
  {
    seq(|names|, i requires 0 <= i < |names| => ModelKey(names[i]))
  }

  /** The position of the first reference that cannot be opened and embedded (`embed` stands for
      `Image.open(...).convert("RGB")`, the processor and `get_image_features` with the L2
      normalisation, None when any of them raises), or `|names|` when all can. */
  function FirstUnembeddable(names: seq<string>, embed: string -> Option<Embedding>): (k: nat)
    ensures k <= |names|
    ensures forall j | 0 <= j < k :: embed(names[j]).Some?
    ensures k < |names| ==> embed(names[k]).None?
  {
    if names == [] then 0
    else
      var k := FirstUnembeddable(names[..|names| - 1], embed);
      if k < |names| - 1 then k
      else if embed(names[|names| - 1]).None? then |names| - 1
      else |names|
  }

  /** The first failure among the first `m` references is the first failure overall. */
  lemma FirstUnembeddablePrefix(names: seq<string>, m: nat, embed: string -> Option<Embedding>)
    requires m <= |names|
    requires FirstUnembeddable(names[..m], embed) < m
    ensures FirstUnembeddable(names, embed) == FirstUnembeddable(names[..m], embed)
  {
    var k := FirstUnembeddable(names[..m], embed);
    forall j | 0 <= j < k ensures embed(names[j]).Some? {
      assert names[..m][j] == names[j];
    }
    assert names[..m][k] == names[k];
  }

  /** One more reference: it is the first failure when the earlier ones all embed and it does not. */
  lemma FirstUnembeddableSnoc(names: seq<string>, x: string, embed: string -> Option<Embedding>)
    requires FirstUnembeddable(names, embed) == |names|
    ensures FirstUnembeddable(names + [x], embed) == if embed(x).Some? then |names| + 1 else |names|
  {
    assert (names + [x])[..|names|] == names;
  }

  /** The embeddings of references that all embed, in order. */
  function Embeddings(names: seq<string>, embed: string -> Option<Embedding>): (embs: seq<Embedding>)
    requires FirstUnembeddable(names, embed) == |names|
    ensures |embs| == |names|
    ensures forall i | 0 <= i < |names| :: Some(embs[i]) == embed(names[i])
  {
    seq(|names|, i requires 0 <= i < |names| && embed(names[i]).Some? => embed(names[i]).value)
  }

  /** The `for fname in sorted(os.listdir(ref_dir))` loop: the embeddings and model keys of the
      references in sorted order, or the first reference whose embedding raises. */
  method CollectReferences(listing: seq<string>, embed: string -> Option<Embedding>)
    returns (r: Result<(seq<Embedding>, seq<string>), string>)
    ensures var refs := Accepted(listing);
      var k := FirstUnembeddable(refs, embed);
      if k < |refs| then r == Failure(refs[k])
      else r == Success((Embeddings(refs, embed), ModelKeys(refs)))
  {
    var sorted := SortNames(listing);
    var embs: seq<Embedding> := [];
    var keys: seq<string> := [];
    ghost var seen: seq<string> := [];
    var i := 0;
    while i < |sorted|
      invariant i <= |sorted|
      invariant seen == ImageNames(sorted[..i])
      invariant FirstUnembeddable(seen, embed) == |seen|
      invariant embs == Embeddings(seen, embed) && keys == ModelKeys(seen)
    {
      var fname := sorted[i];
      CollectStep(sorted, i, seen, embed);
      if HasImageExtension(fname) {
        var feat := embed(fname);
        if feat.None? {
          return Failure(fname);
        }
        embs := embs + [feat.value];
        keys := keys + [ModelKey(fname)];
        seen := seen + [fname];
      }
      i := i + 1;
    }
    assert sorted[..i] == sorted;
    return Success((embs, keys));
  }

  /** One entry of the sorted listing: skipped when it is not an image, the first failure of
      the whole listing when it is an image that does not embed, and otherwise appended with its
      embedding and model key. */
  lemma CollectStep(sorted: seq<string>, i: nat, seen: seq<string>, embed: string -> Option<Embedding>)
    requires i < |sorted|
    requires seen == ImageNames(sorted[..i])
    requires FirstUnembeddable(seen, embed) == |seen|
    ensures !HasImageExtension(sorted[i]) ==> ImageNames(sorted[..i + 1]) == seen
    ensures HasImageExtension(sorted[i]) && embed(sorted[i]).None? ==>
      var refs := ImageNames(sorted);
      var k := FirstUnembeddable(refs, embed);
      k < |refs| && refs[k] == sorted[i]
    ensures HasImageExtension(sorted[i]) && embed(sorted[i]).Some? ==>
      && ImageNames(sorted[..i + 1]) == seen + [sorted[i]]
      && FirstUnembeddable(seen + [sorted[i]], embed) == |seen| + 1
      && Embeddings(seen + [sorted[i]], embed) == Embeddings(seen, embed) + [embed(sorted[i]).value]
      && ModelKeys(seen + [sorted[i]]) == ModelKeys(seen) + [ModelKey(sorted[i])]
  {
    var x := sorted[i];
    ImageNamesStep(sorted, i);
    if HasImageExtension(x) {
      FirstUnembeddableSnoc(seen, x, embed);
      if embed(x).None? {
        FailureIsFirst(sorted, i, embed);
      }
    }
  }

  /** A reference that fails to embed after references that all embed is the first failure of
      the whole listing. */
  lemma FailureIsFirst(sorted: seq<string>, i: nat, embed: string -> Option<Embedding>)
    requires i < |sorted|
    requires FirstUnembeddable(ImageNames(sorted[..i + 1]), embed) == |ImageNames(sorted[..i])|
    requires ImageNames(sorted[..i + 1]) == ImageNames(sorted[..i]) + [sorted[i]]
    ensures var refs := ImageNames(sorted);
      var k := FirstUnembeddable(refs, embed);
      k < |refs| && refs[k] == sorted[i]
  {
    var seen := ImageNames(sorted[..i + 1]);
    ImageNamesPrefix(sorted, i + 1);
    FirstUnembeddablePrefix(ImageNames(sorted), |seen|, embed);
  }

  // ---------------------------------------------------------------------------
  // Saving and uploading
  // ---------------------------------------------------------------------------

  /** What `main` ends with: an exception raised while embedding the named file, the early
      return with nothing found, or the saved file, uploaded or not. */
  datatype BuildOutcome = Aborted(name: string) | NoReferences | Saved(count: nat) | SavedAndUploaded(count: nat)

  /** The dictionary handed to `torch.save`. */
  function ReferenceFile(embs: seq<Embedding>, keys: seq<string>): (f: EmbeddingFile)
    ensures f.embeddings == Some(embs) && f.keys == Some(keys)
  {
    EmbeddingFile(Some(embs), Some(keys))
  }

  /** The local disk and the object store the builder writes to. */
  class Workspace {
    /** `torch.save`: the bytes written for a dictionary. */
    const save: EmbeddingFile -> Bytes
    var disk: map<string, Bytes>
    var objects: map<(string, string), Bytes>

    constructor (save: EmbeddingFile -> Bytes, disk: map<string, Bytes>, objects: map<(string, string), Bytes>)
      ensures this.save == save && this.disk == disk && this.objects == objects
    {
      this.save, this.disk, this.objects := save, disk, objects;
    }

    /** `main` after the model is loaded: collect the references; with none, stop; otherwise save
        them at `outPath` and, when a bucket is configured, put the saved bytes at `s3Key`. */
    method BuildAndUpload(listing: seq<string>, embed: string -> Option<Embedding>,
                          outPath: string, s3Key: string, bucket: Option<string>)
      returns (outcome: BuildOutcome)
      modifies this`disk, this`objects
      ensures var refs := Accepted(listing);
        var k := FirstUnembeddable(refs, embed);
        if k < |refs| then
          outcome == Aborted(refs[k]) && disk == old(disk) && objects == old(objects)
        else if refs == [] then
          outcome == NoReferences && disk == old(disk) && objects == old(objects)
        else
          var bytes := save(ReferenceFile(Embeddings(refs, embed), ModelKeys(refs)));
          && disk == old(disk)[outPath := bytes]
          && (if Truthy(bucket) then
                outcome == SavedAndUploaded(|refs|) && objects == old(objects)[(bucket.value, s3Key) := bytes]
              else
                outcome == Saved(|refs|) && objects == old(objects))
    {
      var collected := CollectReferences(listing, embed);
      if collected.Failure? {
        return Aborted(collected.error);
      }
      var (embs, keys) := collected.value;
      if |embs| == 0 {
        return NoReferences;
      }
      disk := disk[outPath := save(ReferenceFile(embs, keys))];
      if Truthy(bucket) {
        objects := objects[(bucket.value, s3Key) := disk[outPath]];
        return SavedAndUploaded(|embs|);
      }
      return Saved(|embs|);
    }
  }
}
