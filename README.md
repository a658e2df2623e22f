# Intake ledger

A model of the in-memory intake ledger of a small file-intake service. A
client uploads a file; the service records an import record and answers an
import id; a status query returns the record stored under an id. Two
variants of the ledger are modelled:

- `DraftLedger` (app/main_inmemory_draft.py): the idempotent ledger. It keeps
  `imports` (import id to record) and `processed` (idempotency key
  `"user_id:sha256hex"` to import id). An upload over 2,000,000 bytes is
  refused with `TooLarge` and changes nothing. An upload whose key is
  already processed answers the existing id marked `Duplicate`. Any other
  upload files one new record under a fresh id and answers `Received`. A
  missing submitter defaults to `"anon"`.
- `BasicLedger` (app/main.py): the earlier ledger. Every upload files one
  new record under a fresh id. There is no size limit and no deduplication.

Both variants answer the status query with the stored record, or with
`NotFound` for an unknown id.

Layout:

- `common.dfy`: bytes, `Option`, `Result` and the error kinds. The errors
  stand in for the HTTP 413 and 404 responses.
- `fingerprint.dfy`: the hex digest type and the idempotency key. It also
  proves that the key is injective, because the digest has a fixed length.
- `draft_ledger.dfy`: the idempotent ledger. `Intake` and `Find` are the
  specification of one call. `Consistent` is the invariant that ties the
  two tables together. `Ledger` is a class whose two map fields are
  updated in place, with methods proved against the specification.
- `basic_ledger.dfy`: the non-deduplicating ledger, with the same structure
  and one map field.

External calls are parameters, as follows:

- SHA-256 is a `Hasher`. This is any total function from bytes to a
  64-character lower-case hex string, fixed when a ledger is constructed.
- `uuid4` is a `freshId` argument. The caller must supply an id that is
  not yet a key of `imports`.
- The uploaded body is a byte sequence that has already been read.

Where the service description and the code differ, the model follows the
code:

- app/main.py has no size limit and no deduplication.
- Records carry no creation timestamp.
- Duplicate detection is a membership check followed by an insert. It is
  not an atomic insert-if-absent on a store, and there is no
  idempotency-lookup-failure path.

## Model

| member | source | states |
|---|---|---|
| `Fingerprint.KeyInjective` | app/main_inmemory_draft.py:34 | two keys `user_id:hash` are equal exactly when both the submitters and the digests are equal |
| `DraftLedger.Find` | app/main_inmemory_draft.py:56-60 | the query succeeds exactly when the id is a key of `imports`, returns the record stored under it, and otherwise fails with NotFound |
| `DraftLedger.EmptyStoreConsistent` | app/main_inmemory_draft.py:9-10 | the two empty tables the service starts with satisfy the consistency invariant |
| `DraftLedger.SizeGate` | app/main_inmemory_draft.py:29-30 | an upload is accepted exactly when its length is at most 2,000,000 bytes, so exactly 2,000,000 is accepted; a longer one fails with TooLarge and leaves both tables unchanged |
| `DraftLedger.AnonymousByDefault` | app/main_inmemory_draft.py:24 | an upload without a submitter behaves exactly as one from `"anon"` |
| `DraftLedger.DuplicateReturnsExisting` | app/main_inmemory_draft.py:36-39 | when the key is already processed, the upload answers Duplicate, leaves both tables unchanged, and the id it returns names a record of the same submitter and digest |
| `DraftLedger.FirstIntakeInserts` | app/main_inmemory_draft.py:41-52 | for a first-time key the answer is Received with the fresh id; `imports` and `processed` each gain exactly one key; the new key maps to the fresh id; every earlier entry of both tables is unchanged |
| `DraftLedger.AcceptedIntakeFilesKey` | app/main_inmemory_draft.py:36-52 | after any accepted upload the key is processed and the answer carries the id filed under it; the answer is Received exactly when the key was new; at most one record is added |
| `DraftLedger.IntakeThenFind` | app/main_inmemory_draft.py:44-60 | after a Received upload, the query for the returned id yields a record with status received, the given filename, size = content length, no errors, the content's digest and the submitter |
| `DraftLedger.IntakePreservesConsistent` | app/main_inmemory_draft.py:42-51 | every upload keeps the invariant: each processed key names a record in `imports` whose submitter and digest form that key, and each record is named by its own key |
| `DraftLedger.AtMostOneRecordPerKey` | app/main_inmemory_draft.py:37-44 | in a consistent state, two records with the same submitter and the same digest are the same record |
| `DraftLedger.IntakeIdempotent` | app/main_inmemory_draft.py:33-39 | submitting the same content as the same submitter twice returns the same id; the second answer is Duplicate and leaves both tables as the first left them, whatever its filename |
| `DraftLedger.IsolationBySubmitter` | app/main_inmemory_draft.py:33-43 | identical content from two different submitters, neither of whom sent it before, is Received twice under two distinct ids |
| `DraftLedger.RepeatAfterProcessed` | app/main_inmemory_draft.py:37-39 | once a key is processed, any number of further identical uploads all answer Duplicate with the id filed under the key, and the tables stay unchanged |
| `DraftLedger.RepeatedIntakeSharesOneId` | app/main_inmemory_draft.py:33-52 | N identical uploads in sequence all answer one id; the first is Received exactly when the key was new; all later ones are Duplicate; at most one record is added |
| `DraftLedger.ThreeUploadScenario` | app/main_inmemory_draft.py:24-52 | from empty tables: `u1` sends the 8 bytes `a,b\n1,2\n` and gets Received with size 8; `u1` sends them again and gets Duplicate with the same id; `u2` sends them and gets Received with its own fresh id |
| `DraftLedger.Ledger.constructor` | app/main_inmemory_draft.py:9-10 | the ledger starts with both tables empty and consistent |
| `DraftLedger.Ledger.CreateImport` | app/main_inmemory_draft.py:23-52 | updates the two map fields in place, exactly as `Intake` says, answers what `Intake` answers, and keeps the invariant |
| `DraftLedger.Ledger.GetImport` | app/main_inmemory_draft.py:55-60 | answers what `Find` answers on the current tables and changes nothing |
| `BasicLedger.Find` | app/main.py:19-24 | the query succeeds exactly when the id is a key of `imports`, returns the record stored under it, and otherwise fails with NotFound |
| `BasicLedger.CreateAddsOneRecord` | app/main.py:14-16 | every upload adds exactly one key, the fresh id, and leaves every existing record unchanged |
| `BasicLedger.CreateThenFind` | app/main.py:16-24 | the query for the new id returns a record with status received, the given filename, size = content length and no errors |
| `BasicLedger.NoDeduplication` | app/main.py:13-16 | the same upload twice yields two distinct ids and two records with equal contents, so the table grows by two |
| `BasicLedger.CreatePreservesAllReceived` | app/main.py:16 | uploads only ever add records that are received and have no errors |
| `BasicLedger.Ledger.constructor` | app/main.py:10 | the ledger starts with an empty table |
| `BasicLedger.Ledger.CreateImport` | app/main.py:12-17 | inserts into the map field in place, exactly as `Create` says, and answers the fresh id |
| `BasicLedger.Ledger.GetImport` | app/main.py:19-24 | answers what `Find` answers on the current table and changes nothing |

## Left out

- HTTP routing, status codes, decorators and exception marshalling are left out. Failures are the `TooLarge` and `NotFound` results, and the 413 message text is not modelled.
- The `healthz` endpoint of both files is left out. It is a stateless liveness probe.
- The asynchronous `file.read()` is left out. The content is an already-read byte sequence.
- The SHA-256 internals are left out, because they are a foreign library. The digest is any deterministic function with a 64-character lower-case hex result, and collision resistance is not modelled. The records' digests are not tied to stored content, since the content is not stored.
- `uuid4` randomness is left out. The fresh id is an argument that must not be a key of `imports`. In the draft, `uuid4` is called only on the first-time path, but the model asks for an unused id on every call.
- The upload framework may report a missing filename (`None`). The model always takes a filename string.
- Concurrency between the membership check and the insert in app/main_inmemory_draft.py is left out. The model is sequential, so the race of concurrent identical uploads is not captured. `RepeatedIntakeSharesOneId` covers only sequential repetition.
- Durable storage, creation timestamps and the store-failure errors are left out. None of them exists in the modelled code.
