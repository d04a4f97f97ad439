# Glasses matcher: upload relay, reference cache and reference builder

The system has three parts, which together match photos of glasses to 3D models.

- **The relay backend** (`server.mjs`) takes the uploaded images and writes each one to a storage bucket. Each image is stored under a key `uploads/<ms>_<name>`, where every whitespace run of the name becomes one `_`. The relay then posts the keys to the model server. If that server names a best match, the relay answers with a presigned URL for the model, valid for an hour.
- **The model server** (`model_server.py`) loads CLIP lazily. It keeps the reference embeddings in a three-tier cache: memory first, then a local file, then a copy downloaded from the bucket. It downloads the request's images in order and answers with the reference key at the arg-max of the similarity scores.
- **The reference builder** (`build_and_upload_embeddings.py`) does the following:
  - lists the reference folder in Python's sorted order;
  - keeps the `.png`/`.jpg`/`.jpeg` entries, matching the extension case-insensitively;
  - embeds each kept entry and gives it the key `models/<stem>.glb`;
  - saves the embeddings and keys together;
  - uploads the saved file when a bucket is configured.

The Dafny project has one module per program. The modules share two support modules:

- `Common`: `Option`, `Result`, bytes, embeddings, the saved dictionary, and Python/JavaScript truthiness.
- `Text`: decimal rendering of integers, ASCII lower-casing, suffix tests, and Python's order on `str`.

The modules per program are:

- `Relay` (relay.dfy). Its filename rule is a function, with lemmas about the regular-expression replace. The replace is written for any character class (`ReplaceRuns`); `Sanitize` applies it to JavaScript's `\s`. The handler is a class `RelayServer` with two fields that change: the bucket contents (a `map`) and a log of the calls it makes. It reaches storage, the model server and the presigner through functions supplied at construction.
- `ModelServer` (model_server.dfy). This is a class `ModelServer` whose fields are the module globals and the local disk. Loading a pretrained model, `torch.load`, image decoding, the CLIP features and cosine similarity are functions supplied at construction. Scores are integers, a totally ordered stand-in for the float scores.
- `ReferenceBuild` (reference_build.dfy). It models the sort, the extension filter and `os.path.splitext`. The loop over the listing is a method proved against those functions. The save and upload are a `Workspace` class over the disk and the bucket.
- `Alignment` (alignment.dfy). It relates the builder's output to the server's selection. Once the saved file is loaded, the key at the arg-max is the model key of the best-scoring reference image.

Three behaviours of the code are kept as they are written:

- **Upload keys can collide.** Two uploads in the same millisecond whose names sanitise alike (`a b.jpg` and `a_b.jpg`) get the same key. The second write replaces the first. See `UploadKeyNotUnique` and `CollidingBatchOverwrites`.
- **A failed processor load is cached.** `load_model` caches the model before it loads the processor. If the processor fails to load, later calls return the cached model with no processor, and `match` then fails when it calls the processor.
- **Leading-dot names are not split.** `os.path.splitext` does not split a name made only of dots before its extension. So `.png` is an accepted reference whose key is `models/.png.glb`.

## Model

| member | source | states |
|---|---|---|
| Text.Decimal | server.mjs:28 | The rendering of the millisecond clock is non-empty and all digits, with no leading zero except for `0` itself |
| Text.DecimalRoundTrip | server.mjs:28 | Reading the rendered digits back gives the same number |
| Text.CanonicalRoundTrip | server.mjs:28 | Every digit string without a superfluous leading zero is the rendering of its value |
| Text.DecimalInjective | server.mjs:28 | Different timestamps render differently |
| Text.StrLeTotal | build_and_upload_embeddings.py:39 | Python's order on `str` relates any two names one way or the other |
| Text.StrLeTransitive | build_and_upload_embeddings.py:39 | The order on names is transitive |
| Text.StrLeAntisymmetric | build_and_upload_embeddings.py:39 | Names that are ordered both ways are equal |
| Relay.ReplaceRunsNoneIn | server.mjs:27 | After the replace, no character of the class is left, since `_` is not in it. For `Sanitize` this means no JavaScript whitespace |
| Relay.ReplaceRunsKeeps | server.mjs:27 | A name with no character of the class is left unchanged |
| Relay.ReplaceRunsIdempotent | server.mjs:27 | Replacing a second time changes nothing |
| Relay.ReplaceRunsSplit | server.mjs:27 | Every character outside the class is kept, in place: it splits the result into the replaced parts before and after it |
| Relay.ReplaceRunsRun | server.mjs:27 | Each maximal run of class characters becomes exactly one `_`, wherever it stands |
| Relay.ParseUploadKeyRoundTrip | server.mjs:25-29 | An upload key is exactly `uploads/` + decimal timestamp + `_` + sanitised name: parsing it gives back the timestamp and the sanitised name |
| Relay.ParseUploadKeySound | server.mjs:25-29 | Every key that parses is the upload key of what it parses to |
| Relay.UploadKeyCollides | server.mjs:25-29 | Two uploads share a key if and only if their timestamps are equal and their names sanitise alike |
| Relay.UploadKeyNotUnique | server.mjs:25-29 | `a b.jpg` and `a_b.jpg` in the same millisecond get the same key |
| Relay.UploadKeysDistinct | server.mjs:54-59 | The keys of a batch are pairwise distinct if and only if no two files share both a timestamp and a sanitised name |
| Relay.UploadKeys | server.mjs:54-58 | There is one key per file, in submission order, each derived from that file's name and timestamp |
| Relay.FirstFault | server.mjs:55-57 | The position of the first write that fails: every earlier write succeeds, and the write at that position fails |
| Relay.StoredLastWrite | server.mjs:54-59 | After the writes of a batch, a key holds the private object of the last file written under it |
| Relay.StoredElsewhere | server.mjs:54-59 | Keys that the batch does not write keep their old contents |
| Relay.CollidingBatchOverwrites | server.mjs:54-59 | For the colliding pair, the two keys are equal and the second file's object is what storage keeps |
| Relay.RelayServer.constructor | server.mjs:61-62 | The matching endpoint is the configured or default address followed by `/match` |
| Relay.RelayServer.UploadBufferToS3 | server.mjs:36-46 | One write with the given key, the content type and ACL `private`; storage changes only when the write succeeds |
| Relay.RelayServer.PresignedUrlForKey | server.mjs:31-34 | One presign call for the key, with expiry 3600 seconds unless another is given |
| Relay.RelayServer.UploadBatch | server.mjs:54-59 | Each file is written under its key, in submission order, up to and including the first failed write. Storage holds exactly those writes. On success the key list is the batch's keys, in order |
| Relay.RelayServer.RelayMatch | server.mjs:61-80 | After posting the keys and the bucket, the handler answers according to `Relays` |
| Relay.RelayServer.HandleMatch | server.mjs:48-85 | See below: handler outcomes |
| Relay.PresignOnlyOnMatch | server.mjs:75-80 | A presign happens if and only if the matcher answered ok with a truthy `best_match_key`. It is then exactly one presign of that key for 3600 seconds, and the matched reply carries the matcher's result |
| Relay.RelayStatus | server.mjs:68-84 | The reply is 502 if and only if the matcher's response is not ok, and then its detail is the response text. `matched: false` is returned if and only if the key is falsy. A 200 reply implies a parsed answer |
| ModelServer.UseSafetensorsCaseInsensitive | model_server.py:52 | Safetensors are on when `USE_SAFETENSORS` is unset, and the setting ignores letter case |
| ModelServer.EffectiveBucket | model_server.py:89-91 | The request's bucket when it is truthy, else the configured bucket when that is truthy, else none |
| ModelServer.ArgMax | model_server.py:111 | The index is in range, its score is at least every score, and no earlier index has an equal score |
| ModelServer.ArgMaxUnique | model_server.py:111 | The first maximal index is the only index with those properties |
| ModelServer.SelectBestSound | model_server.py:111-113 | See below: best-key selection |
| ModelServer.SelectBestAligned | model_server.py:111-113 | With at least as many keys as scores, the selection is the key at the arg-max |
| ModelServer.FromFile | model_server.py:67-71 | Loading fails when the file cannot be read or has no `embeddings` entry. Otherwise the cache gets the embeddings and the keys, or `[]` when there is no `keys` entry |
| ModelServer.ModelServer.LoadModelBehaviour | model_server.py:49-60 | See below: model loading |
| ModelServer.ModelServer.LoadModelMemoised | model_server.py:50-51 | Once a call has cached a model, the next call loads nothing and returns the cached pair |
| ModelServer.ModelServer.ProcessorFailureIsCached | model_server.py:53-60 | When the processor fails to load, the first call fails but leaves the model cached without a processor. Every later call then succeeds with no processor and loads nothing |
| ModelServer.ModelServer.LoadModel | model_server.py:49-60 | The result, the cached model and processor, and the events are those of `LoadModelStep` on the old cache |
| ModelServer.ModelServer.DownloadToBytes | model_server.py:45-47 | One download. It returns the object's bytes, or fails when the object does not exist |
| ModelServer.ModelServer.ReferenceStepBehaviour | model_server.py:62-82 | See below: reference embeddings |
| ModelServer.ModelServer.ReferencesMemoised | model_server.py:64-65 | Once a call has filled the cache, the next call returns the same pair with no file or storage access |
| ModelServer.ModelServer.EnsureReferenceEmbeddings | model_server.py:62-82 | The result, the cache, the disk and the events are those of `ReferenceStepFrom` on the old cache and disk |
| ModelServer.ModelServer.FirstFailedFetch | model_server.py:96-99 | The position of the first key whose download or decoding fails |
| ModelServer.ModelServer.Images | model_server.py:96-99 | When every key fetches, there is one image per key, in request order, and each is that key's decoded object |
| ModelServer.ModelServer.DownloadImages | model_server.py:96-99 | Each key is downloaded once, in request order, up to the first failure. On success there is one decoded image per key |
| ModelServer.ModelServer.Scores | model_server.py:107-109 | There is one score per reference row |
| ModelServer.ModelServer.AnswerOf | model_server.py:96-116 | See below: the answer |
| ModelServer.ModelServer.AnswerFailsExactly | model_server.py:96-116 | The answer fails if and only if an image cannot be fetched, the processor is missing, embedding fails, there are no reference rows, or keys exist but run out before the arg-max |
| ModelServer.ModelServer.Answer | model_server.py:96-116 | The result is `AnswerOf`. The downloads are the request's keys in order, up to and including the first that fails |
| ModelServer.ModelServer.Match | model_server.py:87-116 | See below: the match endpoint |
| ReferenceBuild.ImageNamesMembers | build_and_upload_embeddings.py:40 | An entry is processed if and only if it is listed and its lower-cased name ends in `.png`, `.jpg` or `.jpeg` |
| ReferenceBuild.ImageNamesPrefix | build_and_upload_embeddings.py:39-40 | Filtering keeps listing order: the references among the first entries come first |
| ReferenceBuild.SortNames | build_and_upload_embeddings.py:39 | `sorted` returns a sorted permutation of the listing |
| ReferenceBuild.SortedPermutationUnique | build_and_upload_embeddings.py:39 | Any sorted permutation of the listing is the sorted listing, so the visiting order is determined |
| ReferenceBuild.ImageNamesSorted | build_and_upload_embeddings.py:39-40 | The references of a sorted listing are in sorted order |
| ReferenceBuild.AcceptedSpec | build_and_upload_embeddings.py:39-40 | The visited references are sorted, and they are exactly the listed names with an image extension |
| ReferenceBuild.SplitExtParts | build_and_upload_embeddings.py:49 | `splitext` splits a path into two parts that concatenate back to it. The extension is empty, or a dot followed by neither a dot nor a separator |
| ReferenceBuild.SplitExtOfStem | build_and_upload_embeddings.py:49 | A name made of a stem that is not all dots and an extension splits into exactly those two parts |
| ReferenceBuild.ModelKeyOfImage | build_and_upload_embeddings.py:40-49 | An accepted image whose stem is not all dots gets the key `models/<stem>.glb`, with the stem's case kept |
| ReferenceBuild.DotStemKeepsExtension | build_and_upload_embeddings.py:49 | A name whose stem is only dots (or empty) is not split: it stays whole, and its model key keeps the extension (`..jpg` gets `models/..jpg.glb`) |
| ReferenceBuild.LeadingDotNameKeepsExtension | build_and_upload_embeddings.py:40-49 | `.png` is accepted and gets the key `models/.png.glb` |
| ReferenceBuild.ModelKeyShared | build_and_upload_embeddings.py:49 | Names that differ only in their extension get the same model key |
| ReferenceBuild.ModelKeys | build_and_upload_embeddings.py:49 | There is one key per reference, in order, each being that reference's model key |
| ReferenceBuild.FirstUnembeddable | build_and_upload_embeddings.py:41-47 | The position of the first reference whose opening or embedding raises |
| ReferenceBuild.FirstUnembeddablePrefix | build_and_upload_embeddings.py:39-47 | A failure among the first references is the first failure overall |
| ReferenceBuild.Embeddings | build_and_upload_embeddings.py:41-47 | There is one embedding per reference, in order, each being that reference's features |
| ReferenceBuild.CollectReferences | build_and_upload_embeddings.py:37-49 | The loop aborts at the first reference that fails to embed. Otherwise `embs` and `keys` are index-aligned: they hold the embeddings and model keys of the sorted references |
| ReferenceBuild.ReferenceFile | build_and_upload_embeddings.py:56 | The dictionary handed to `torch.save` carries the embeddings under `embeddings` and the model keys under `keys`; that the server reads both back aligned is `Alignment.SavedReferencesLoadAligned` |
| ReferenceBuild.Workspace.BuildAndUpload | build_and_upload_embeddings.py:51-66 | See below: build and upload |
| Alignment.SavedReferencesLoadAligned | build_and_upload_embeddings.py:47-56 | When the server loads the saved file, the rows and keys have equal length. Row i is the embedding of the i-th sorted reference, and key i is its model key |
| Alignment.BestKeyNamesBestImage | model_server.py:111-113 | With one score per reference, the answered key is the model key of the first best-scoring reference image |

The rows marked "see below" state the following.

**Handler outcomes** (`Relay.RelayServer.HandleMatch`):
- With no files or an empty list, the reply is 400 `No images provided`, with no write and no call.
- Otherwise the files are written in order up to the first failure, and a failed write is a 500 carrying its message.
- Without a failure, the keys are posted and the reply follows `Relays`:
  - 500 on an unreachable matcher or unparsable JSON;
  - 502 with the response text when the response is not ok;
  - `matched: false` for a falsy key;
  - otherwise one presign of 3600 seconds, giving `matched: true` with the URL, or 500 when presigning fails.

**Best-key selection** (`ModelServer.SelectBestSound`):
- The selection fails if and only if there are no scores, or keys exist but run out before the chosen index.
- Otherwise the index has a maximal score, no earlier index ties it, and the key is `ref_keys[idx]`; it is None exactly when there are no keys.

**Model loading** (`ModelServer.ModelServer.LoadModelBehaviour`):
- A cached model is returned with the cached processor, and nothing is loaded.
- Otherwise the loader first tries with the safetensors setting, then falls back to the default load, and then loads the processor.
- The model stays cached even when the processor fails.

**Reference embeddings** (`ModelServer.ModelServer.ReferenceStepBehaviour`):
- A populated cache is returned with no file or storage access.
- Otherwise an existing local file is loaded, with no download.
- Otherwise the configured object is downloaded, written to the local file and loaded. Any failure on this path is the RuntimeError `Reference embeddings not found. Upload first.`
- On success the cache holds what was returned; on failure it is unchanged.

**The answer** (`ModelServer.ModelServer.AnswerOf`), once the bucket is known and the model and references are loaded:
- The first key whose download or decoding fails ends the request with that failure.
- Otherwise a missing processor is `ProcessorNotCallable`.
- A success has fetched every image and embedded them. Its scores are those of the images' embedding against every reference row, and there is at least one row.
- Its `best_score` is the score at the arg-max. Its `best_match_key` is the reference key there, or none when there are no keys.
- No failure here is an HTTP exception.

**The match endpoint** (`ModelServer.ModelServer.Match`):
- A missing bucket is a 400 `bucket missing`, before any load or download, with nothing changed.
- Otherwise `load_model` runs first. Its failure is returned with its effects kept (a model stays cached after a processor failure), and the references are not touched.
- Then `ensure_reference_embeddings` runs. Its failure is returned with its effects kept (a downloaded file stays on disk).
- Otherwise the reply is `AnswerOf` over the loaded model, processor, rows and keys, and the log ends with the image downloads.
- A failure has status 400 exactly when the bucket is missing; every other failure is a 500.

**Build and upload** (`ReferenceBuild.Workspace.BuildAndUpload`):
- If a reference fails to embed, the build aborts on it, and nothing is saved or uploaded.
- If there are no references, nothing is saved or uploaded.
- Otherwise the dictionary is saved at the output path. Only when a bucket is given are the saved bytes put under `s3_key`.

## Left out

- CORS, multer's memory storage and 10 MiB limit, the `/health` endpoints, Express/FastAPI routing and JSON encoding, argparse, and the logging and `print` output. These are framework plumbing.
- The frontend, the three.js viewer and the `fetch` wrappers in `api.js`. These are UI and network clients outside the core.
- The clock (`Date.now()`) is taken as one input timestamp per file.
- Concurrent requests are not modelled: each `/match` request of the relay runs alone. In Node, other requests' handlers run while this one awaits a write, the matcher or the presigner, so their writes can land between this batch's writes or replace one of its keys in the same millisecond; the storage that `HandleMatch` states holds only for a request that runs alone.
- Relay.UploadKey: keys are rendered as non-negative integers in plain decimal. This matches JavaScript's number-to-string for every clock value below 10^21, and does not model the exponent form above that.
- ReferenceBuild.HasImageExtension: `str.lower()` is modelled on ASCII letters only. No non-ASCII character lower-cases to a character of `.png`, `.jpg` or `.jpeg`, so the extension test is unaffected. Other non-ASCII case mappings are not modelled.
- CLIP inference, L2 normalisation, the mean and the matrix product are left out. Embeddings are opaque rows, and similarity is a supplied function with integer scores. Floating point, NaN scores and tensor shapes (including `torch.stack` of rows of unequal width) are not modelled.
- The storage service, SigV4 presigning, `torch.save`/`torch.load` formats and PIL decoding are supplied functions: a bucket map, a presigner, a fault per key, loaders that may fail, and a decoder that may fail.
- ModelServer.ModelServer.LoadModel: moving the model to the device is taken to succeed, and the device name is a configuration value.
- ModelServer.FromFile: an `embeddings` or `keys` entry that is present but holds a non-tensor value is not distinguished from a well-formed one.
- ModelServer.ModelServer.EnsureReferenceEmbeddings: an unset configured bucket fails before any download is recorded, standing for the storage client rejecting a missing bucket name.
- ReferenceBuild.Workspace.BuildAndUpload: the listing is an input, so a missing or unreadable reference folder (where `os.listdir` raises and nothing is saved) is not modelled. Loading the CLIP model and processor, and the I/O faults of saving, reopening and uploading the output file, are not modelled. Opening and embedding one image is a supplied function that may fail. The builder's storage client configuration is not modelled.
- The source of `os.path.splitext` is not part of this model. `SplitExt` follows its documented POSIX behaviour.
