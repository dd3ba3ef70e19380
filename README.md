# ScriptHost upload route, modelled in Dafny

ScriptHost stores a user's script and hands back three things: a public
script id, a secret owner key, and a loader line. The loader line is
`loadstring(game:HttpGet("<executeUrl>"))()`. Anyone holding the execute URL
can fetch the raw script. Only the holder of the owner key can view it through
the view route.

This project models the write side of that design, the `POST` handler of
`app/api/upload/route.ts`. Its parts:

- **Payload resolution.** A JSON body or a form (a file or a text field) gives
  a script and a filename, or a 400 answer. A form is read only under a form
  content type; any other header is a 500.
- **Owner key.** `generateOwnerKey` produces 32 symbols from A–Z, a–z, 0–9.
- **The stored record.** It holds the Base64 (section 4 of RFC 4648) of the
  script's UTF-8 (RFC 3629) bytes, plus the owner key, the filename and the
  creation time.
- **Strings.** The blob path `scripts/<id>/data.json`, the execute URL and the
  loader line.
- **The handler.** It either answers an error and stores nothing, or writes
  exactly one record and answers with the same id, key and filename.

Files:

| file | module | contents |
|---|---|---|
| wrappers.dfy | `Wrappers`, `Bytes` | `Option`, the `byte` type |
| utf8.dfy | `Utf8` | UTF-8 encoder, strict decoder, both round trips |
| base64.dfy | `Base64` | RFC 4648 encoder, canonical decoder, both round trips, length and alphabet |
| owner_key.dfy | `OwnerKey` | the 62-symbol alphabet, `KeyOf`, the `Generate` loop |
| text.dfy | `Text` | `Contains` (JavaScript `includes`), prefix and wrapper helpers |
| media_type.dfy | `MediaType` | the content-type test `formData()` makes: the header's essence and the two form types |
| links.dfy | `Links` | storage path, execute URL, loader line and their inverses |
| upload.dfy | `Upload` | request/record/response datatypes, `Resolve`, `MakeRecord`, `Handle`, the `BlobStore` class and the `Post` method |

Several inputs are nondeterministic or external in the source. The model takes
each of them as a parameter:

- the script id (`nanoid(12)`);
- the 32 alphabet indices that `Math.floor(Math.random() * 62)` would draw;
- the request origin;
- the `createdAt` timestamp;
- whether the blob store's `put` succeeds.

`Post` is proved against the pure function `Handle`: its new store and its
answer are exactly what `Handle` gives for the old store. The lemmas state the
route's promises about `Handle`.

The key alphabet is declared as the three runs A–Z, a–z, 0–9, concatenated.
That is the same 62-character string as the literal in the source, in the
same order. `OwnerKey.AlphabetLayout` proves that position `i` holds the
symbol with index `i`.

## Model

| member | source | states |
|---|---|---|
| `OwnerKey.Generate` | app/api/upload/route.ts:67-75 | the 32-iteration append loop yields exactly the key `KeyOf(draws)`, one alphabet symbol per draw |
| `OwnerKey.KeyOf` | app/api/upload/route.ts:67-75 | every key is 32 characters long and every character is in A–Z, a–z or 0–9 |
| `OwnerKey.AlphabetLayout` | app/api/upload/route.ts:68-69 | the alphabet has 62 symbols, and position `i` holds the alphanumeric symbol of index `i` |
| `OwnerKey.AlphabetMembership` | app/api/upload/route.ts:68-69 | a character is in the alphabet if and only if it is alphanumeric |
| `OwnerKey.KeyDeterminesDraws` | app/api/upload/route.ts:70-74 | different draw sequences give different keys, so every one of the 62^32 outcomes is a distinct key |
| `Text.ContainsIff` | app/api/upload/route.ts:84 | `includes` is true if and only if the needle occurs at some position of the text |
| `Text.BetweenWrapped` | app/api/upload/route.ts:142 | removing a known prefix and suffix from `prefix + m + suffix` gives back `m` |
| `Upload.MissingHeaderFails` | app/api/upload/route.ts:82-96 | a missing content-type header (read as "") selects the form branch, and `formData()` rejects it, so the answer is 500 whatever the body |
| `Upload.FormHeaderRequired` | app/api/upload/route.ts:96 | on the form branch, a form body is read if and only if the header's media type is `multipart/form-data` or `application/x-www-form-urlencoded`; otherwise the request fails |
| `Upload.ExamplePlainTextForm` | app/api/upload/route.ts:96 | a form sent with `Content-Type: text/plain` is answered 500 "Failed to upload script" and leaves the store unchanged |
| `MediaType.MultipartWithBoundary` | app/api/upload/route.ts:96 | `multipart/form-data; boundary=<b>` names a form body, whatever the boundary |
| `MediaType.CaseInsensitive` | app/api/upload/route.ts:96 | the form-type test ignores ASCII case: a header passes if and only if its lower-case form does |
| `MediaType.NotFormMediaTypes` | app/api/upload/route.ts:96 | an empty header and `text/plain` name no form body |
| `Upload.JsonBranchIff` | app/api/upload/route.ts:82-84 | the JSON branch is taken if and only if "application/json" occurs in the header |
| `Upload.JsonResolution` | app/api/upload/route.ts:86-94 | JSON body: an absent, null or empty script means no content; otherwise the script is used as given, and the filename is the given one or "script.lua" |
| `Upload.FileWins` | app/api/upload/route.ts:101-103 | form body under a form content type: a file with `size > 0` gives the file's text, even an empty one, and the file's name, whatever the script and filename fields hold |
| `Upload.FormTextFallback` | app/api/upload/route.ts:104-112 | form body under a form content type, with no file or a file of size 0: a given script field is used with the filename field or "script.lua"; with no script field the result is no content |
| `Upload.ResolvedScriptNonEmpty` | app/api/upload/route.ts:84-113 | a script resolved from the JSON body or the form's text field is non-empty; a script from the file branch is empty exactly when the file's text is |
| `Upload.ExampleMarkOnlyFile` | app/api/upload/route.ts:101-103 | a `multipart/form-data` upload whose file has 3 bytes that read as "" (a lone byte-order mark) is stored and answered with success, and the record decodes to "" |
| `Upload.FilenameOr` | app/api/upload/route.ts:87 | an absent, null or empty filename becomes "script.lua", and a given non-empty name is kept |
| `Utf8.EncodeEmpty` | app/api/upload/route.ts:121 | the UTF-8 buffer built from the script is empty if and only if the script is empty |
| `Utf8.Encode` | app/api/upload/route.ts:121 | UTF-8 takes between 1 and 4 bytes per character |
| `Utf8.EncodeChar` | app/api/upload/route.ts:121 | a character's encoding is 1 to 4 bytes; the lead byte announces that length, the rest are continuation bytes, and the form is never overlong |
| `Utf8.DecodeEncode` | app/api/upload/route.ts:121 | decoding the UTF-8 bytes of a text gives back the text |
| `Utf8.EncodeDecode` | app/api/upload/route.ts:121 | every byte sequence that decodes is exactly the encoding of its decoded text, so the decoder accepts nothing else |
| `Base64.Encode` | app/api/upload/route.ts:121 | the encoding has length 4·⌈n/3⌉, uses only the 64 symbols and `=`, and has `=` only in its last two positions |
| `Base64.DecodeEncode` | app/api/upload/route.ts:119-121 | decoding the Base64 text gives back exactly the encoded bytes (it is an encoding, not encryption) |
| `Base64.EncodeDecode` | app/api/upload/route.ts:121 | every text that the strict decoder accepts is the canonical encoding of its result |
| `Upload.MakeRecord` | app/api/upload/route.ts:119-129 | the record's `script` decodes to the UTF-8 bytes of the content, has length 4·⌈bytes/3⌉ and uses only Base64 characters; the owner key, filename and `createdAt` are stored as given |
| `Upload.StoredTextRoundTrip` | app/api/upload/route.ts:119-121 | decoding a stored record's script (Base64, then UTF-8) gives back the uploaded text unchanged |
| `Links.StoragePathRoundTrip` | app/api/upload/route.ts:132 | the id can be read back from `scripts/<id>/data.json` |
| `Links.StoragePathInjective` | app/api/upload/route.ts:132 | two ids share a storage path if and only if they are equal |
| `Links.ListingFindsOwnRecord` | app/api/upload/route.ts:132 | the execute and view routes (`app/api/scripts/<id>/execute/route.ts` lines 12-16, and the view route) look a record up by listing `scripts/<id>/` and picking the path that contains "data.json"; for any looked-up id `a` and any stored id `b` without '/', the listing prefix `scripts/<a>/` matches the stored path of `b` if and only if a = b, and that path contains "data.json" |
| `Links.ExecuteUrlRoundTrip` | app/api/upload/route.ts:141-142 | the id can be read back from `<origin>/api/scripts/<id>/execute` |
| `Links.LoadstringRoundTrip` | app/api/upload/route.ts:149 | the loader line fetches exactly the execute URL it was built from, and contains that URL as a substring |
| `Upload.BadRequestIffNoContent` | app/api/upload/route.ts:89-112 | the answer is 400 "No script content provided" if and only if no script resolves, and nothing is stored then |
| `Upload.SuccessIff` | app/api/upload/route.ts:77-159 | the upload succeeds if and only if a script resolves and the store accepts the write |
| `Upload.FailureStoresNothing` | app/api/upload/route.ts:152-158 | every failure answers 400 "No script content provided" or 500 "Failed to upload script", and leaves the store unchanged |
| `Upload.SuccessWritesOneRecord` | app/api/upload/route.ts:124-135 | a success adds exactly the key `scripts/<id>/data.json`; every other path keeps its record and no other path appears |
| `Upload.SuccessEchoesRecord` | app/api/upload/route.ts:116-151 | the answer echoes the id, owner key and filename that were written; the key is `KeyOf(draws)`, the one drawn, and is 32 alphanumeric characters; the filename is the one resolved from the payload; `executeUrl` is the id's execute URL; and the loader line wraps that URL |
| `Upload.SuccessKeysFollowDraws` | app/api/upload/route.ts:116 | two successful uploads answer the same owner key if and only if their key draws are equal |
| `Upload.SuccessStoresScript` | app/api/upload/route.ts:119-135 | after a success, the stored record decodes to exactly the script resolved from the payload |
| `Upload.ExampleJsonUpload` | app/api/upload/route.ts:84-151 | JSON `{script: "print('hi')", filename: "a.lua"}` succeeds: the answer names a.lua and has a 32-character key, and the record decodes to `print('hi')` |
| `Upload.JsonUploadSucceeds` | app/api/upload/route.ts:84-151 | an `application/json` upload with a non-empty script and filename succeeds when the write is accepted: the answer names the file, has a 32-character key and a loader line around the execute URL, and the record decodes to the script |
| `Upload.ExampleEmptyJsonUpload` | app/api/upload/route.ts:89-94 | an empty JSON object gives 400 and leaves the store unchanged |
| `Upload.BlobStore.Put` | app/api/upload/route.ts:132-135 | the write changes exactly one map entry |
| `Upload.Post` | app/api/upload/route.ts:77-159 | the handler's answer and new store are exactly `Handle` of the old store and the inputs |

## Left out

- `sendDiscordNotification` (lines 9-64, called at 138) is an outbound network call. Nothing awaits it and its errors are swallowed, so it has no effect on the answer or the store. It is omitted. The call posts the script id and the owner key to a webhook URL written into the source (lines 5-6, 25-33). So the key does leave the service through a channel other than the creation response. The model does not capture that disclosure.
- `nanoid(12)` is a foreign library. The id is a parameter with no constraint on its length or alphabet. `Links.ListingFindsOwnRecord` assumes only that the stored id has no '/', which holds for nanoid's URL-safe alphabet.
- `Math.random` is floating point. It is replaced by caller-supplied draws: 32 indices, each in [0, 62). The model says nothing about randomness. The source's `Math.random` is not a cryptographic generator, whereas a security-token generator would need one. The model follows the code and makes no strength claim.
- `new Date().toISOString()` and `request.nextUrl.origin` are parameters.
- The blob store's `put` is a map update on `BlobStore.objects`. Its failure is the boolean `putSucceeds`, which turns into a 500 answer.
- The record is stored as a value. Its `JSON.stringify` text and the `access`/`contentType` options of `put` are not modelled.
- Framework parsing (`request.json()`, `request.formData()`, `file.text()`) is not modelled. The body is a datatype whose string fields are optional. A body that the branch's parser cannot read is `Unparsable`, which the route turns into a 500. That can happen to a JSON body or a multipart body, for example a multipart header without a `boundary` parameter. The urlencoded parser never fails: any body sent as `application/x-www-form-urlencoded` reads as some form, so it never leads to `Unparsable`. The header test that `formData()` makes first is modelled in `MediaType`: on the form branch, a header that is not a form type is a 500. Beyond that test, the body is not tied to the header. A form file carries its `size` and its text as two independent fields, so any pairing is allowed, including a byte-order mark alone (size 3, text ""). How `file.text()` turns bytes into text is not modelled.
- JSON fields that are not strings are not modelled: numbers, booleans and objects in `script` or `filename` take other paths in JavaScript. Nor are form fields of the other kind: a text `file` field, or a `File` in the `script` field.
- Script text is a Dafny `string`, which is a sequence of Unicode scalar values. JavaScript strings are UTF-16. Lone surrogates, which `Buffer.from` replaces with U+FFFD, and file bytes that are not valid UTF-8 are outside the model.
- `scriptContent.length` is used only in the notification, so it is not modelled.
- The execute and view routes (app/api/scripts/[id]/…) are not modelled as endpoints. Only their prefix lookup is used, in `Links.ListingFindsOwnRecord`. The decoders `Base64.Decode` and `Utf8.Decode`, and so `Upload.StoredText`, are strict and return `None` on bad input. Both read routes decode with `Buffer.from(…, "base64").toString("utf-8")`, which never fails. It skips characters outside the alphabet and replaces invalid UTF-8 with U+FFFD. On the records this route writes, the strict decoders succeed and give back the uploaded text (`Upload.StoredTextRoundTrip`). The lenient decoding of the read routes is not modelled.
- Logging (`console.error`) is not modelled.
- `MediaType.Essence` and `MediaType.IsFormMediaType` read the header as one MIME type: trim, cut at the first ';', trim, ASCII lower case. The Fetch standard's "extract a MIME type" instead splits the header value at commas (outside quoted strings), which is how repeated headers are joined. It parses each piece and keeps the last one that parses. Comma-joined values are not modelled, and so the model can be wrong about them. For example, `text/plain, multipart/form-data; boundary=b` is a form to the standard but a 500 in the model. Nor are the parser's checks for token characters modelled. For a single value they cannot change whether the result equals one of the two form types.
