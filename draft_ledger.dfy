/** The idempotent intake ledger of app/main_inmemory_draft.py.

    The service keeps two tables: `imports` maps an import id to its record,
    and `processed` maps the idempotency key "user_id:hash" to the import id
    first issued for that key. An upload over the size limit is refused
    without touching either table; an upload whose key was seen before gets
    the existing id back, marked Duplicate; any other upload gets a fresh id
    (supplied by the caller, standing in for uuid4) and one new record.

    The pure functions Intake and Find are the specification of one call on
    the pair of tables; the class Ledger holds the tables as mutable fields
    and is proved to follow them. */
module DraftLedger {
  import opened Common
  import opened Fingerprint

  /** Uploads strictly longer than this are refused. */
  const MaxUploadBytes: nat := 2_000_000

  /** The submitter used when the request names none. */
  const DefaultUserId := "anon"

  datatype ImportRecord = ImportRecord(
    status: string,
    filename: string,
    size: nat,
    errors: seq<string>,
    hash: Digest,
    userId: string)

  /** Whether an accepted upload created a record or matched an earlier one. */
  datatype Outcome = Received | Duplicate

  /** What a successful upload answers: the import id and the outcome. */
  datatype Receipt = Receipt(importId: string, outcome: Outcome)

  /** The two tables of the service. */
  datatype Store = Store(imports: map<string, ImportRecord>, processed: map<string, string>)

  /** The tables after one upload, and what that upload answered. */
  datatype Step = Step(store: Store, result: Result<Receipt>)

  const EmptyStore := Store(map[], map[])

  function UserIdOrDefault(userId: Option<string>): string
  {
    match userId
    case Some(u) => u
    case None => DefaultUserId
  }

  /** The idempotency key a record was filed under. */
  function KeyOf(rec: ImportRecord): string
  {
    Key(rec.userId, rec.hash)
  }

  /** The tables agree with each other: every processed key names a record
      carrying that submitter and digest, and every record is named by its
      own key. */
  ghost predicate Consistent(s: Store)
  {
    && (forall k | k in s.processed ::
          s.processed[k] in s.imports && KeyOf(s.imports[s.processed[k]]) == k)
    && (forall iid | iid in s.imports ::
          KeyOf(s.imports[iid]) in s.processed && s.processed[KeyOf(s.imports[iid])] == iid)
  }

  /** The record a first-time upload creates. */
  function NewRecord(userId: string, filename: string, content: Bytes, fingerprint: Hasher): ImportRecord
  {
    ImportRecord(StatusReceived, filename, |content|, [], fingerprint(content), userId)
  }

  /** One upload: size gate, then insert-if-absent on the idempotency key. */
  function Intake(s: Store, userId: Option<string>, filename: string, content: Bytes,
                  fingerprint: Hasher, freshId: string): Step
    requires freshId !in s.imports
  {
    if |content| > MaxUploadBytes then
      Step(s, Err(TooLarge))
    else
      var uid := UserIdOrDefault(userId);
      var key := Key(uid, fingerprint(content));
      if key in s.processed then
        Step(s, Ok(Receipt(s.processed[key], Duplicate)))
      else
        Step(Store(s.imports[freshId := NewRecord(uid, filename, content, fingerprint)],
                   s.processed[key := freshId]),
             Ok(Receipt(freshId, Received)))
  }

  /** The status query: the record stored under the id, or NotFound. */
  function Find(s: Store, iid: string): (r: Result<ImportRecord>)
    ensures r.Ok? <==> iid in s.imports
    ensures r.Ok? ==> r.value == s.imports[iid]
    ensures r.Err? ==> r.error == NotFound
  {
    if iid in s.imports then Ok(s.imports[iid]) else Err(NotFound)
  }

  // ---------------------------------------------------------------------
  // Properties of one upload

  lemma EmptyStoreConsistent()
    ensures Consistent(EmptyStore)
  {
  }

  /** Uploads longer than the limit are refused and change nothing; an
      upload of exactly the limit is accepted. */
  lemma SizeGate(s: Store, userId: Option<string>, filename: string, content: Bytes,
                 fingerprint: Hasher, freshId: string)
    requires freshId !in s.imports
    ensures Intake(s, userId, filename, content, fingerprint, freshId).result.Ok?
            <==> |content| <= MaxUploadBytes
    ensures |content| > MaxUploadBytes ==>
              Intake(s, userId, filename, content, fingerprint, freshId) == Step(s, Err(TooLarge))
  {
  }

  /** A request without a submitter is filed under "anon". */
  lemma AnonymousByDefault(s: Store, filename: string, content: Bytes,
                           fingerprint: Hasher, freshId: string)
    requires freshId !in s.imports
    ensures Intake(s, None, filename, content, fingerprint, freshId)
            == Intake(s, Some("anon"), filename, content, fingerprint, freshId)
  {
  }

  /** An upload whose key is already processed returns the id filed under
      that key, marked Duplicate, leaves both tables as they were, and that
      id names a record of the same submitter and digest. */
  lemma DuplicateReturnsExisting(s: Store, userId: Option<string>, filename: string,
                                 content: Bytes, fingerprint: Hasher, freshId: string)
    requires Consistent(s)
    requires freshId !in s.imports
    requires |content| <= MaxUploadBytes
    requires Key(UserIdOrDefault(userId), fingerprint(content)) in s.processed
    ensures var step := Intake(s, userId, filename, content, fingerprint, freshId);
            && step.store == s
            && step.result.Ok?
            && step.result.value.outcome == Duplicate
            && var found := Find(s, step.result.value.importId);
            && found.Ok?
            && found.value.userId == UserIdOrDefault(userId)
            && found.value.hash == fingerprint(content)
  {
    var uid := UserIdOrDefault(userId);
    var key := Key(uid, fingerprint(content));
    var rec := s.imports[s.processed[key]];
    KeyInjective(rec.userId, rec.hash, uid, fingerprint(content));
  }

  /** A first-time key adds exactly one record and one key, under the fresh
      id, and leaves every earlier entry of both tables as it was. */
  lemma FirstIntakeInserts(s: Store, userId: Option<string>, filename: string,
                           content: Bytes, fingerprint: Hasher, freshId: string)
    requires freshId !in s.imports
    requires |content| <= MaxUploadBytes
    requires Key(UserIdOrDefault(userId), fingerprint(content)) !in s.processed
    ensures var step := Intake(s, userId, filename, content, fingerprint, freshId);
            var key := Key(UserIdOrDefault(userId), fingerprint(content));
            && step.result == Ok(Receipt(freshId, Received))
            && step.store.imports.Keys == s.imports.Keys + {freshId}
            && step.store.processed.Keys == s.processed.Keys + {key}
            && |step.store.imports| == |s.imports| + 1
            && |step.store.processed| == |s.processed| + 1
            && step.store.processed[key] == freshId
            && (forall iid | iid in s.imports :: step.store.imports[iid] == s.imports[iid])
            && (forall k | k in s.processed :: step.store.processed[k] == s.processed[k])
  {
    var uid := UserIdOrDefault(userId);
    var key := Key(uid, fingerprint(content));
    var imports' := s.imports[freshId := NewRecord(uid, filename, content, fingerprint)];
    var processed' := s.processed[key := freshId];
    assert Intake(s, userId, filename, content, fingerprint, freshId)
        == Step(Store(imports', processed'), Ok(Receipt(freshId, Received)));
    assert imports'.Keys == s.imports.Keys + {freshId};
    assert processed'.Keys == s.processed.Keys + {key};
  }

  /** After a Received upload, the status query for the returned id yields
      the record built from this upload. */
  lemma IntakeThenFind(s: Store, userId: Option<string>, filename: string,
                       content: Bytes, fingerprint: Hasher, freshId: string)
    requires freshId !in s.imports
    requires Intake(s, userId, filename, content, fingerprint, freshId).result.Ok?
    requires Intake(s, userId, filename, content, fingerprint, freshId).result.value.outcome == Received
    ensures var step := Intake(s, userId, filename, content, fingerprint, freshId);
            Find(step.store, step.result.value.importId)
            == Ok(ImportRecord(StatusReceived, filename, |content|, [], fingerprint(content),
                               UserIdOrDefault(userId)))
  {
  }

  /** Every upload keeps the two tables consistent. */
  lemma IntakePreservesConsistent(s: Store, userId: Option<string>, filename: string,
                                  content: Bytes, fingerprint: Hasher, freshId: string)
    requires Consistent(s)
    requires freshId !in s.imports
    ensures Consistent(Intake(s, userId, filename, content, fingerprint, freshId).store)
  {
    if |content| <= MaxUploadBytes {
      var uid := UserIdOrDefault(userId);
      var key := Key(uid, fingerprint(content));
      if key !in s.processed {
        var s' := Intake(s, userId, filename, content, fingerprint, freshId).store;
        var rec := NewRecord(uid, filename, content, fingerprint);
        assert KeyOf(rec) == key;
        forall k | k in s'.processed
          ensures s'.processed[k] in s'.imports && KeyOf(s'.imports[s'.processed[k]]) == k
        {
          if k != key {
            assert s'.processed[k] == s.processed[k] != freshId;
          }
        }
        forall iid | iid in s'.imports
          ensures KeyOf(s'.imports[iid]) in s'.processed
                  && s'.processed[KeyOf(s'.imports[iid])] == iid
        {
          if iid != freshId {
            assert KeyOf(s.imports[iid]) in s.processed;
          }
        }
      }
    }
  }

  /** The uniqueness invariant: for a fixed submitter, at most one record
      carries a given digest. */
  lemma AtMostOneRecordPerKey(s: Store, i: string, j: string)
    requires Consistent(s)
    requires i in s.imports && j in s.imports
    requires s.imports[i].userId == s.imports[j].userId
    requires s.imports[i].hash == s.imports[j].hash
    ensures i == j
  {
    assert KeyOf(s.imports[i]) == KeyOf(s.imports[j]);
  }

  // ---------------------------------------------------------------------
  // Properties of several uploads

  /** Submitting the same content as the same submitter twice returns the
      same id both times; the second answer is Duplicate and leaves both
      tables as the first left them, whatever filename it carries. */
  lemma IntakeIdempotent(s: Store, userId: Option<string>, filename1: string, filename2: string,
                         content: Bytes, fingerprint: Hasher, id1: string, id2: string)
    requires id1 !in s.imports && id2 !in s.imports && id1 != id2
    requires |content| <= MaxUploadBytes
    ensures var first := Intake(s, userId, filename1, content, fingerprint, id1);
            && first.result.Ok?
            && id2 !in first.store.imports
            && var second := Intake(first.store, userId, filename2, content, fingerprint, id2);
            && second.result == Ok(Receipt(first.result.value.importId, Duplicate))
            && second.store == first.store
  {
  }

  /** Identical content from two different submitters is filed under two
      keys: when neither had sent it before, both uploads are Received and
      get distinct ids. */
  lemma IsolationBySubmitter(s: Store, user1: Option<string>, user2: Option<string>,
                             filename1: string, filename2: string, content: Bytes,
                             fingerprint: Hasher, id1: string, id2: string)
    requires Consistent(s)
    requires UserIdOrDefault(user1) != UserIdOrDefault(user2)
    requires id1 !in s.imports && id2 !in s.imports && id1 != id2
    requires |content| <= MaxUploadBytes
    requires Key(UserIdOrDefault(user1), fingerprint(content)) !in s.processed
    requires Key(UserIdOrDefault(user2), fingerprint(content)) !in s.processed
    ensures var first := Intake(s, user1, filename1, content, fingerprint, id1);
            && id2 !in first.store.imports
            && var second := Intake(first.store, user2, filename2, content, fingerprint, id2);
            && first.result == Ok(Receipt(id1, Received))
            && second.result == Ok(Receipt(id2, Received))
            && first.result.value.importId != second.result.value.importId
  {
    var h := fingerprint(content);
    KeyInjective(UserIdOrDefault(user1), h, UserIdOrDefault(user2), h);
  }

  /** Distinct ids no earlier record uses: a model of repeated uuid4 calls. */
  ghost predicate FreshIds(s: Store, ids: seq<string>)
  {
    && (forall i | 0 <= i < |ids| :: ids[i] !in s.imports)
    && (forall i, j | 0 <= i < j < |ids| :: ids[i] != ids[j])
  }

  /** The same upload repeated once per id, in order, one call after another. */
  ghost function RepeatIntake(s: Store, userId: Option<string>, filename: string, content: Bytes,
                              fingerprint: Hasher, ids: seq<string>): (Store, seq<Result<Receipt>>)
    requires FreshIds(s, ids)
    decreases |ids|
  {
    if ids == [] then (s, [])
    else
      var step := Intake(s, userId, filename, content, fingerprint, ids[0]);
      assert FreshIds(step.store, ids[1..]) by {
        forall i | 0 <= i < |ids[1..]| ensures ids[1..][i] !in step.store.imports {
          assert ids[1..][i] == ids[i + 1] != ids[0];
        }
      }
      var rest := RepeatIntake(step.store, userId, filename, content, fingerprint, ids[1..]);
      (rest.0, [step.result] + rest.1)
  }

  /** Once the key is processed, every repetition is a Duplicate with the id
      filed under the key, and the tables stay as they are. */
  lemma {:induction false} RepeatAfterProcessed(s: Store, userId: Option<string>, filename: string,
                                                content: Bytes, fingerprint: Hasher, ids: seq<string>)
    requires FreshIds(s, ids)
    requires |content| <= MaxUploadBytes
    requires Key(UserIdOrDefault(userId), fingerprint(content)) in s.processed
    ensures var run := RepeatIntake(s, userId, filename, content, fingerprint, ids);
            && run.0 == s
            && |run.1| == |ids|
            && forall i | 0 <= i < |ids| ::
                 run.1[i] == Ok(Receipt(s.processed[Key(UserIdOrDefault(userId), fingerprint(content))],
                                        Duplicate))
    decreases |ids|
  {
    if ids != [] {
      var step := Intake(s, userId, filename, content, fingerprint, ids[0]);
      assert step.store == s;
      RepeatAfterProcessed(s, userId, filename, content, fingerprint, ids[1..]);
    }
  }

  /** After one accepted upload its key is processed, the answer carries
      the id filed under it, and at most one record was added. */
  lemma AcceptedIntakeFilesKey(s: Store, userId: Option<string>, filename: string,
                               content: Bytes, fingerprint: Hasher, freshId: string)
    requires freshId !in s.imports
    requires |content| <= MaxUploadBytes
    ensures var key := Key(UserIdOrDefault(userId), fingerprint(content));
            var step := Intake(s, userId, filename, content, fingerprint, freshId);
            && key in step.store.processed
            && step.result.Ok?
            && step.result.value.importId == step.store.processed[key]
            && (step.result.value.outcome == Received <==> key !in s.processed)
            && |step.store.imports| <= |s.imports| + 1
  {
    var key := Key(UserIdOrDefault(userId), fingerprint(content));
    if key !in s.processed {
      FirstIntakeInserts(s, userId, filename, content, fingerprint, freshId);
    }
  }

  /** N uploads of the same content by the same submitter share one id: the
      first is Received exactly when the key was new, all later ones are
      Duplicate, and at most one record is added. */
  lemma RepeatedIntakeSharesOneId(s: Store, userId: Option<string>, filename: string,
                                  content: Bytes, fingerprint: Hasher, ids: seq<string>)
    requires FreshIds(s, ids)
    requires |ids| > 0
    requires |content| <= MaxUploadBytes
    ensures var key := Key(UserIdOrDefault(userId), fingerprint(content));
            var run := RepeatIntake(s, userId, filename, content, fingerprint, ids);
            && |run.1| == |ids|
            && (forall i | 0 <= i < |ids| :: run.1[i].Ok? && run.1[i].value.importId == run.1[0].value.importId)
            && (run.1[0].value.outcome == Received <==> key !in s.processed)
            && (forall i | 0 < i < |ids| :: run.1[i].value.outcome == Duplicate)
            && |run.0.imports| <= |s.imports| + 1
  {
    var key := Key(UserIdOrDefault(userId), fingerprint(content));
    var step := Intake(s, userId, filename, content, fingerprint, ids[0]);
    AcceptedIntakeFilesKey(s, userId, filename, content, fingerprint, ids[0]);
    var id := step.store.processed[key];
    assert FreshIds(step.store, ids[1..]) by {
      forall i | 0 <= i < |ids[1..]| ensures ids[1..][i] !in step.store.imports {
        assert ids[1..][i] == ids[i + 1] != ids[0];
      }
    }
    RepeatAfterProcessed(step.store, userId, filename, content, fingerprint, ids[1..]);
    var rest := RepeatIntake(step.store, userId, filename, content, fingerprint, ids[1..]);
    var run := RepeatIntake(s, userId, filename, content, fingerprint, ids);
    assert run == (rest.0, [step.result] + rest.1);
    forall i | 0 < i < |ids|
      ensures run.1[i] == Ok(Receipt(id, Duplicate))
    {
      assert run.1[i] == rest.1[i - 1];
    }
  }

  /** The three-upload scenario: "u1" sends a file, "u1" sends it again, then
      "u2" sends the same bytes, starting from empty tables. */
  lemma ThreeUploadScenario(fingerprint: Hasher, id1: string, id2: string, id3: string)
    requires id1 != id2 && id1 != id3 && id2 != id3
    ensures var content: Bytes := [97, 44, 98, 10, 49, 44, 50, 10];
            var a := Intake(EmptyStore, Some("u1"), "x.csv", content, fingerprint, id1);
            && a.result == Ok(Receipt(id1, Received))
            && Find(a.store, id1).Ok? && Find(a.store, id1).value.size == 8
            && id2 !in a.store.imports
            && var b := Intake(a.store, Some("u1"), "x.csv", content, fingerprint, id2);
            && b.result == Ok(Receipt(id1, Duplicate))
            && id3 !in b.store.imports
            && var c := Intake(b.store, Some("u2"), "x.csv", content, fingerprint, id3);
            && c.result == Ok(Receipt(id3, Received))
  {
    var content: Bytes := [97, 44, 98, 10, 49, 44, 50, 10];
    EmptyStoreConsistent();
    IntakeIdempotent(EmptyStore, Some("u1"), "x.csv", "x.csv", content, fingerprint, id1, id2);
    var a := Intake(EmptyStore, Some("u1"), "x.csv", content, fingerprint, id1);
    IntakePreservesConsistent(EmptyStore, Some("u1"), "x.csv", content, fingerprint, id1);
    KeyInjective("u1", fingerprint(content), "u2", fingerprint(content));
    assert a.store.processed.Keys == {Key("u1", fingerprint(content))};
  }

  // ---------------------------------------------------------------------
  // The service state

  /** The module-level tables of the service and the operations on them. */
  class Ledger {
    var imports: map<string, ImportRecord>
    var processed: map<string, string>
    const fingerprint: Hasher

    ghost function State(): Store
      reads this
    {
      Store(imports, processed)
    }

    ghost predicate Valid()
      reads this
    {
      Consistent(State())
    }

    constructor (fingerprint: Hasher)
      ensures Valid()
      ensures State() == EmptyStore && this.fingerprint == fingerprint
    {
      imports := map[];
      processed := map[];
      this.fingerprint := fingerprint;
    }

    /** create_import: the upload endpoint. */
    method CreateImport(userId: Option<string>, filename: string, content: Bytes, freshId: string)
      returns (r: Result<Receipt>)
      requires Valid()
      requires freshId !in imports
      modifies this
      ensures Valid()
      ensures Step(State(), r) == Intake(old(State()), userId, filename, content, fingerprint, freshId)
    {
      IntakePreservesConsistent(State(), userId, filename, content, fingerprint, freshId);
      if |content| > MaxUploadBytes {
        return Err(TooLarge);
      }
      var uid := UserIdOrDefault(userId);
      var hash := fingerprint(content);
      var key := Key(uid, hash);
      if key in processed {
        return Ok(Receipt(processed[key], Duplicate));
      }
      processed := processed[key := freshId];
      imports := imports[freshId := ImportRecord(StatusReceived, filename, |content|, [], hash, uid)];
      r := Ok(Receipt(freshId, Received));
    }

    /** get_import: the status query; it changes nothing. */
    method GetImport(iid: string) returns (r: Result<ImportRecord>)
      ensures r == Find(State(), iid)
    {
      if iid in imports {
        r := Ok(imports[iid]);
      } else {
        r := Err(NotFound);
      }
    }
  }
}
