# file-type-filter, modelled in Dafny

This project models `FileTypeFilter`, the type-gated stream transform of
node-file-type-filter. The filter copies the leading bytes of a stream into a
fixed 4100-byte classification buffer and asks the `file-type` classifier for
the stream's type. It then checks the detected MIME type against a policy:
one MIME string, an array of them, or a predicate. After that it passes every
later chunk through unchanged, or it fails every later chunk with
"Stream type not allowed".

- `wrappers.dfy` (module `Wrappers`): `Option`, the classifier's "maybe a type".
- `file_type_filter.dfy` (module `Filter`): the constants, the three decision
  states, the policy and `IsAllowed`, and Node's `Buffer.copy` as `CopyInto`.
  It also holds `Step`, one `_transform` call stated on a value `Snapshot` of
  the filter's fields. The class `FileTypeFilter` has the array buffer, the
  counter, the state and the policy. Its constructor and its `Transform`
  method update those fields in place, and `Transform` is proved to do what
  `Step` says.
- `stream.dfy` (module `Stream`): `Run`, successive direct `_transform` calls
  on a sequence of chunks, and lemmas about what those calls return as a
  whole. Decided states are absorbing and the decision is made once. A call
  that brings the counter to 4100 without a type blocks. The bytes of a
  withheld chunk are never returned by a later call.

The classifier is a parameter of the constructor: an arbitrary total function
from the buffer's 4100 bytes to an optional `FileType(ext, mime)`.
Node's stream machinery (`push`, the callback `cb`) is replaced by the
`Action` that a call returns: `Forward(chunk)` for `push(chunk); cb()`,
`Error` for `cb(new Error(...))`, and `Withhold` for a call that does neither.

## Behaviour worth noting

- No "type identified" event is emitted: the source has no `emit`, so the
  model has none.
- Withheld chunks are never flushed. Only the classifying chunk and the
  chunks after it are pushed (lib/file-type-filter.js:62), as
  `Stream.AllowedRunOutput` proves.
- Over direct calls, both the output and the decision depend on how the
  bytes are chunked (`Stream.ChunkingChangesOutput`,
  `Stream.ChunkingChangesDecision`), because the classifier sees every
  intermediate buffer, zero padding included.
- `Buffer.copy` at an offset of 4100 or more copies nothing (`CopyInto`),
  and the invariant `Inv` (undecided implies counter < 4100) shows that case
  is never reached.
- A withheld chunk's callback is never called (lib/file-type-filter.js:70-77),
  so inside a Node pipe no call follows a `Withhold` and the stream stalls.
  The lemmas of `Stream` are about successive direct calls; in a pipe, a
  classifying chunk k > 0 and a budget reached across several chunks do not
  occur.

## Model

| member | source | states |
|---|---|---|
| `Filter.IndexOf` | lib/file-type-filter.js:93 | `indexOf` returns -1 exactly when the type is absent; otherwise it returns an index holding the type with no earlier occurrence |
| `Filter.IsAllowed` | lib/file-type-filter.js:82-94 | a string policy allows exactly that MIME type, an array policy allows exactly its members, a function policy returns the predicate's value |
| `Filter.CopyInto` | lib/file-type-filter.js:51-53 | the buffer keeps its size; positions `offset .. offset+min(|chunk|, size-offset)` receive the chunk's bytes in order; every other byte is unchanged; nothing is copied at or past the end |
| `Filter.Initial` | lib/file-type-filter.js:27-33 | a new filter is Unclassified with counter 0 and a 4100-byte all-zero buffer, and satisfies the invariant |
| `Filter.Step` | lib/file-type-filter.js:38-80 | the state reached decides the action: Allowed iff the chunk itself is forwarded, Blocked iff the error is raised, Unclassified iff the chunk is withheld; a decided filter is left unchanged; the counter never decreases; the invariant (undecided implies counter < 4100) is kept |
| `Filter.UndecidedStep` | lib/file-type-filter.js:48-78 | while undecided, the counter grows by the full chunk length; the buffer takes `min(|chunk|, 4100 - count)` bytes at offset `count` and keeps the rest; a found type goes to Allowed or Blocked by the policy; no type goes to Blocked once 4100 bytes are counted, otherwise stays Unclassified |
| `Filter.FileTypeFilter.constructor` | lib/file-type-filter.js:19-34 | only a string, array or function policy is accepted; the new filter is Unclassified with counter 0 and a zero-filled 4100-byte buffer |
| `Filter.FileTypeFilter.Transform` | lib/file-type-filter.js:38-80 | the fields after the call and the returned action are exactly those given by `Step`; in the Allowed state the chunk is forwarded unchanged and in the Blocked state the error is raised, with no field or buffer byte modified |
| `Stream.Run` | lib/file-type-filter.js:38-80 | successive direct `_transform` calls give one action per chunk; the invariant holds throughout and the counter never decreases |
| `Stream.DecidedRun` | lib/file-type-filter.js:39-47 | from Allowed every later call forwards its chunk unchanged, so the calls return their concatenation; from Blocked every later call raises the error and forwards nothing; the state never changes |
| `Stream.DecisionIsFinal` | lib/file-type-filter.js:38-80 | once a prefix of the calls has reached Allowed or Blocked, any further calls end in that same filter state: the decision is made at most once |
| `Stream.NothingForwardedUnlessAllowed` | lib/file-type-filter.js:59-77 | calls from an undecided filter that do not end Allowed forward zero bytes |
| `Stream.AllowedRunOutput` | lib/file-type-filter.js:59-63 | calls from an undecided filter that end Allowed have a classifying call k; every earlier call withheld its chunk; the calls forward exactly chunks k, k+1, ... concatenated, so earlier withheld chunks are never re-emitted |
| `Stream.BudgetExhaustion` | lib/file-type-filter.js:54-77 | when no call of the run finds a type (for any classifier), successive direct calls end Blocked exactly when the bytes counted reach 4100, whatever the chunk sizes; until then the counter equals the bytes seen; no call forwards anything |
| `Stream.DecidesWithinBudget` | lib/file-type-filter.js:54-77 | for every classifier and policy, a run that ends undecided has counted every byte it was given, and fewer than 4100: the filter always decides within the byte budget |
| `Stream.FirstChunkDecides` | test/test.js:11-33 | when the first chunk already classifies, an allowed type makes the calls forward every byte of the stream and a refused type makes them forward none, with every call raising the error |
| `Stream.ChunkingChangesOutput` | lib/file-type-filter.js:48-77 | for a classifier that needs the second byte, direct calls forward the bytes [1, 2] whole when sent as one chunk, but forward only [2] when sent as [1] then [2] |
| `Stream.ChunkingChangesDecision` | lib/file-type-filter.js:48-77 | for a classifier that recognises a buffer starting 1, 0 and a policy refusing it, the bytes [1, 2] as one chunk leave the filter undecided, while [1] then [2] end Blocked |

## Left out

- Node stream plumbing (`Transform.call`, `util.inherits`, `push`, the `cb` callback) is not modelled. A call's effect is the returned `Action`. The stall after a withheld chunk, whose callback is never called, appears only as `Withhold`.
- Stream.Run models successive direct `_transform` calls. In a Node pipe no call follows a `Withhold`, because `Transform` hands over the next chunk only after the callback runs; the model does not capture that later chunks never arrive.
- The policy is taken as fixed at construction (`const policy`). The source keeps the caller's array or function by reference in the writable field `allowedTypes` (lib/file-type-filter.js:30), so a caller that later mutates the array or reassigns the field changes later `_isAllowed` results; the model does not capture that aliasing, because neither the filter nor its tests change the policy after construction.
- The `file-type` library's signature tables are not modelled, because the library is foreign code. The classifier is an arbitrary deterministic function of the buffer.
- JavaScript predicate policies are modelled as pure `string -> bool`. Side effects and non-boolean (truthy/falsy) return values are not modelled.
- Array policies are modelled as sequences of strings. A non-string element never equals a MIME string under `indexOf`, so such elements cannot change the result.
- The failed assertion on a bad policy shape (`AssertionError`) is modelled as the constructor's precondition, not as an error value.
- End-of-stream handling (`_flush`) does not exist in the source and is not modelled.
- Buffer allocation and deallocation are not modelled. The buffer is a fresh array that the filter keeps for its lifetime.
