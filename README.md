# Streaming file upload of the users service

This project is a Dafny model of the streaming file upload in the users
service. The service is a NestJS application. The modelled parts are:

- `createFileName`, which turns the caller's file name into a storage name:
  a random version-4 UUID followed by the extension that Node's
  `path.extname` takes from the caller's name.
- `uploadFile`, which subscribes to the inbound gRPC stream of
  `UploadFileDto` frames and answers with `UploadStatus` replies pushed into
  an RxJS `Subject`.

Files:

- `node_path.dfy` (module `NodePath`): Node's POSIX `extname`. Trailing `/`
  characters are ignored, and the last path component is used. The extension
  runs from the last `.` of that component. It is empty when the component
  has no `.`, when its only `.` is its first character, or when the component
  is exactly `..`.
- `upload_file_dto.dfy` (module `UploadFileDto`): the frame, the stage
  enumeration and the reply, with the stages' numbers on the wire.
- `users_service.dfy` (module `UsersService`):
  - the UUID text format and `CreateFileName`;
  - the session as pure transitions on a `SessionState` value (`NextState`,
    `CompleteState`, and `Run` over a sequence of events, which stops at the
    first completion or error as the RxJS subscriber does);
  - the class `UploadSession`, whose fields are the variables the closures
    capture and whose methods `OnNext` and `OnComplete` are proved to follow
    those transitions.
- `wrappers.dfy`: `Option`.

The model follows the code as written. In particular:

- The frame's `chunk` is never written to the write stream. The model
  records every file-system call (`CreateWriteStream`, `Write`, `Close`) and
  proves that `Write` never occurs. A two-frame upload therefore leaves an
  empty file.
- Only `next` and `complete` are subscribed. An error of the inbound stream
  runs no session code: the write stream stays open, and neither `failed`
  nor `complete` is emitted. `failed` is never emitted at all. With no
  `error` callback, RxJS reports the inbound error as unhandled (it is
  rethrown asynchronously); that report is outside the model.
- The inbound subscriber stops at the first completion or error. Every
  notification after it is dropped, so no handler runs once the stream has
  ended: no stream is created or closed again and no reply is sent.
- A stream that completes without frames gets one reply, `complete`, with
  the empty name. No name is allocated and no file is opened.
- `subject.next` after `subject.complete()` is dropped, which is how an RxJS
  `Subject` behaves. The model keeps that rule. So over any sequence of
  events, every reply of a session carries the same name.
- The gRPC upload writes to `../uploads/` (src/users/users.service.ts:57).
  The REST download reads from `./uploads`
  (src/users/users.controller.ts:146). A file uploaded over gRPC is
  therefore not found by that download path. This is an observation only;
  the download path is not modelled.

## Model

| member | source | states |
|---|---|---|
| `NodePath.LastIndexOf` | src/users/users.service.ts:44 | The index of the last occurrence of a character: none exactly when the character is absent, otherwise an index holding it with no occurrence after it |
| `NodePath.ExtName` | src/users/users.service.ts:44 | The extension is empty or a single `.` followed by characters that are neither `.` nor `/`; it is a proper suffix of the base name |
| `NodePath.BaseName` | src/users/users.service.ts:44 | The component `extname` looks at holds no `/`, ends the path once trailing slashes are removed, and is preceded by a `/` unless it is the whole trimmed path; so it is the whole last component |
| `NodePath.TrimTrailingSlashes` | src/users/users.service.ts:44 | Removing trailing slashes leaves a prefix of the path that does not end in `/`; everything removed is `/` |
| `NodePath.ExtNameEmptyIff` | src/users/users.service.ts:44 | The extension is empty exactly when the base name has no `.` after its first character, or is `..` |
| `NodePath.ExtNameIsTailOfPath` | src/users/users.service.ts:44 | The extension holds no `/` and is a suffix of the path with trailing slashes removed, so no other part of the caller's name reaches the result |
| `NodePath.ExtNameIgnoresTrailingSlash` | src/users/users.service.ts:44 | Appending `/` to a path does not change its extension |
| `NodePath.ComponentExt` | src/users/users.service.ts:44 | The extension of one component is empty or one `.` followed by no `.`; it is a suffix of the component, and a non-empty one is strictly shorter than the component |
| `NodePath.AfterLastSlash` | src/users/users.service.ts:44 | The text after the last `/` holds no `/`, ends the string, and is preceded by a `/` unless it is the whole string |
| `NodePath.ExtNameOfLastComponent` | src/users/users.service.ts:44 | Only the last component counts: for `dir/name`, the extension is that of `name`, whatever dots `dir` holds |
| `NodePath.ExtNameOfPlainName` | src/users/users.service.ts:44 | For a `/`-free name made of a `.`-free stem and an extension, `ExtName` returns exactly that extension |
| `NodePath.ExtNameFromLastDot` | src/users/users.service.ts:44 | On a `/`-free name other than `..` whose last `.` is not its first character, the extension runs from that `.` to the end |
| `NodePath.ExtNameOfDoubleExtension` | src/users/users.service.ts:44 | `index.coffee.md` has extension `.md` (Node's documented example) |
| `NodePath.ExtNameOfTrailingDot` | src/users/users.service.ts:44 | `index.` has extension `.` (Node's documented example) |
| `NodePath.ExtNameOfDottedHiddenFile` | src/users/users.service.ts:44 | `.index.md` has extension `.md` (Node's documented example) |
| `NodePath.ExtNameOfTextFile` | src/users/users.service.ts:44 | `a.txt` has extension `.txt` |
| `NodePath.ExtNameOfHiddenFile` | src/users/users.service.ts:44 | `.bashrc` has no extension (leading dot only) |
| `NodePath.ExtNameOfParentDir` | src/users/users.service.ts:44 | `..` has no extension |
| `UploadFileDto.Ordinal` | src/users/dto/upload-file.dto.ts:5-9 | The wire number of a stage is below 3 |
| `UploadFileDto.FromOrdinal` | src/users/dto/upload-file.dto.ts:5-9 | Exactly the numbers 0, 1 and 2 decode to a stage, and that stage encodes back to the same number |
| `UploadFileDto.OrdinalRoundTrip` | src/users/dto/upload-file.dto.ts:5-9 | Decoding the number of a stage gives the stage back |
| `UsersService.IsUuidV4` | src/users/users.service.ts:43 | The text form of a version-4 UUID: 36 characters, dashes at 8, 13, 18 and 23, lower-case hex elsewhere, version digit `4` and variant digit among `8`, `9`, `a`, `b`; the type `Uuid` is the strings satisfying it |
| `UsersService.CreateFileName` | src/users/users.service.ts:42-46 | `createFileName`: the id followed by `ExtName` of the caller's name; its properties are stated by `FileNameIsSafe`, `FileNameKeepsExtension` and `FileNameInjective` |
| `UsersService.UuidIsPlain` | src/users/users.service.ts:43 | A version-4 UUID string holds neither `.` nor `/` |
| `UsersService.FileNameIsSafe` | src/users/users.service.ts:42-46 | The first 36 characters of the allocated name are the id; the name is non-empty, holds no `/` and is neither `.` nor `..`, so the sink path stays inside the upload directory whatever the caller sends |
| `UsersService.FileNameKeepsExtension` | src/users/users.service.ts:42-46 | The allocated name has the same extension as the caller's name |
| `UsersService.FileNameInjective` | src/users/users.service.ts:42-46 | Two allocations give the same name exactly when the ids are equal and the callers' extensions are equal: the name depends on the caller's input only through its extension, and distinct ids never collide |
| `UsersService.TextFileName` | src/users/users.service.ts:42-46 | A name allocated for `a.txt` ends in `.txt` |
| `UsersService.Init` | src/users/users.service.ts:49-52 | The state after subscribing: no stream, the name `''`, no file-system call, no reply, an open subject |
| `UsersService.Emit` | src/users/users.service.ts:63 | `subject.next`: the reply is appended unless the subject has completed (also used at line 72) |
| `UsersService.EnsureSink` | src/users/users.service.ts:55-58 | Without a stream, allocate the name, set the path `../uploads/<name>` and record `CreateWriteStream`; with one, change nothing |
| `UsersService.NextState` | src/users/users.service.ts:54-64 | `onNext`: `EnsureSink`, then one `uploading` reply with the current name |
| `UsersService.CloseSink` | src/users/users.service.ts:67 | `writeStream?.close()`: record `Close` when a stream was assigned |
| `UsersService.CompleteState` | src/users/users.service.ts:66-75 | `onComplete`: `CloseSink`, one `complete` reply with the current name, then the subject completes |
| `UsersService.Step` | src/users/users.service.ts:77-80 | The handler an event runs: `onNext` for a frame, `onComplete` for completion, none for an error |
| `UsersService.Run` | src/users/users.service.ts:77-80 | The subscription: frames are handled in order, and the first completion or error ends it; later events are dropped |
| `UsersService.SessionInvariant` | src/users/users.service.ts:48-82 | What holds of every reachable state: one creation at `../uploads/<name>` as the first call and only `Close` after it, a plain-component name, `uploading` replies before completion and one final `complete`, one name on every reply |
| `UsersService.InitInvariant` | src/users/users.service.ts:49-52 | The state after subscribing (no stream, name `''`, no reply) satisfies the session invariant |
| `UsersService.NextKeepsInvariant` | src/users/users.service.ts:54-64 | `onNext` keeps the invariant: it allocates and opens only when no stream exists, and its reply carries the current name |
| `UsersService.CompleteKeepsInvariant` | src/users/users.service.ts:66-75 | `onComplete` keeps the invariant: it closes only an open stream, and its `complete` reply is the last one |
| `UsersService.RunKeepsInvariant` | src/users/users.service.ts:48-82 | Any sequence of frames, completions and errors keeps the session invariant |
| `UsersService.AnyEventSequence` | src/users/users.service.ts:48-82 | Over any event sequence: at most one write stream is created, no chunk is written, `failed` is never emitted, all replies carry one name, and after completion the last reply is the only `complete` |
| `UsersService.AtMostOneClose` | src/users/users.service.ts:55-80 | Over any events the file-system calls are none, the creation alone, or the creation then one `Close`: the stream is never closed twice or before it exists |
| `UsersService.CallsBounded` | src/users/users.service.ts:66-80 | From an open subject with at most the creation done, any events leave at most two file-system calls |
| `UsersService.EndOfStream` | src/users/users.service.ts:77-80 | After a completion or an error, nothing that follows reaches the session: the state is that event's handler result |
| `UsersService.LateEventsDropped` | src/users/users.service.ts:77-80 | A frame after completion creates no stream, a frame after an error sends no reply, and a completion after an error is not reported |
| `UsersService.NameFixedOnceOpened` | src/users/users.service.ts:55-58 | Once the write stream exists, no later event changes the name or the sink path |
| `UsersService.SilentAfterComplete` | src/users/users.service.ts:72-74 | After the subject completes, no event adds a reply |
| `UsersService.FirstFrame` | src/users/users.service.ts:54-64 | The first frame allocates the name from the frame's file name and the id, creates `../uploads/<name>` and replies `uploading` for that name |
| `UsersService.LaterFrame` | src/users/users.service.ts:55-63 | A frame on an open session only appends an `uploading` reply with the name already allocated |
| `UsersService.CompleteOpen` | src/users/users.service.ts:66-75 | Completing an open session appends `Close`, appends a `complete` reply with the allocated name and completes the subject |
| `UsersService.FramesOnOpenSession` | src/users/users.service.ts:54-64 | On an open session, each frame appends exactly one `uploading` reply with the current name and changes nothing else |
| `UsersService.EmptyUpload` | src/users/users.service.ts:66-80 | Zero frames then completion, whatever follows: no allocation, no file-system call, and the single reply `complete` for `''` |
| `UsersService.FramesFromInit` | src/users/users.service.ts:54-64 | N > 0 frames from the start: the name comes from the first frame and first id, the stream `../uploads/<name>` is created once, and there are N `uploading` replies |
| `UsersService.UploadThenComplete` | src/users/users.service.ts:54-80 | N > 0 frames then completion, whatever follows: the stream is created then closed, and the replies are N `uploading` replies followed by one `complete`, all for the allocated name |
| `UsersService.UploadThenError` | src/users/users.service.ts:54-80 | N > 0 frames then an inbound error, whatever follows: the stream stays open, no terminal reply is emitted and the subject never completes |
| `UsersService.TwoFramesThenComplete` | src/users/users.service.ts:54-75 | Two frames then completion give `uploading`, `uploading`, `complete` for the name from the first frame, with create then close on the file system |
| `UsersService.TwoFrameUpload` | src/users/users.service.ts:42-75 | Two `a.txt` frames then completion: three replies for one name ending in `.txt`, and no bytes written |
| `UsersService.UploadSession.constructor` | src/users/users.service.ts:49-52 | A new session has no stream, the name `''`, no reply and an open subject |
| `UsersService.UploadSession.SubjectNext` | src/users/users.service.ts:63 | A reply is appended unless the subject has completed |
| `UsersService.UploadSession.OpenSink` | src/users/users.service.ts:55-58 | On a session without a stream: the name is allocated from the frame's file name and the id, `../uploads/<name>` is created, and the replies and the subject are untouched |
| `UsersService.UploadSession.OnNext` | src/users/users.service.ts:54-64 | Follows `NextState` and keeps the invariant: allocation and `createWriteStream` only when no stream exists, the name fixed afterwards, one `uploading` reply appended while the subject is open |
| `UsersService.UploadSession.OnComplete` | src/users/users.service.ts:66-75 | Follows `CompleteState` and keeps the invariant: `Close` only when a stream exists, one `complete` reply appended while the subject is open, and the subject completed |

## Left out

- The CRUD methods `create`, `findAll`, `findOne`, `update` and `remove` (src/users/users.service.ts:19-40) are left out. They only pass the call on to Mongoose queries.
- The controller (src/users/users.controller.ts) is left out. It holds routes, gRPC and Swagger decorators, and delegation. Its multer filename callback (lines 127-131) uses the same rule as `CreateFileName`. `getFile` is a `sendFile` passthrough.
- The interceptor, the ObjectId pipe, bootstrap, module wiring, the schema and the validation DTOs are left out. They are framework glue.
- File-system I/O is not modelled. The write stream is represented by the file-system calls made on it: create at a path, write bytes, close. Failures of those calls are not modelled.
- Randomness is not modelled. `uuidv4()` is an input (`freshId`) with the version-4 text format. That a fresh id is unique in practice is a probabilistic claim and is not modelled. `FileNameInjective` reduces name uniqueness to id uniqueness.
- The RxJS subscription machinery is modelled only through `Run`: handler calls in order, with the subscriber stopping at the first completion or error. An inbound error reaches no handler, and RxJS's asynchronous report of it as unhandled is not modelled. Asynchrony and the reply stream's delivery to the transport are not modelled.
- `UploadSession.OnComplete` does not itself refuse a second call. That the handlers never run after the stream ends is the subscriber's rule, stated by `Run` and `EndOfStream`, not by the class.
- The frame's `chunk` is kept in the data model but never used, as in the code.
- `NodePath.ExtName` follows Node's POSIX `path.extname`. Windows path rules are not modelled.
