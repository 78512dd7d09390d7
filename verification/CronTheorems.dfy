/** What the cron-job store keeps over whole runs, and what an upsert and a
    delete do to what a later read sees. */
module CronTheorems {
  import opened Common
  import opened Text
  import opened CronJobs
  import opened CronStore

  // ----- tables -----

  lemma {:induction false} TableMembers(jobs: seq<Job>, k: string)
    requires k in Table(jobs)
    ensures Table(jobs)[k] in jobs
  {
    var n := |jobs| - 1;
    if k != KeyOf(jobs[n]) {
      TableMembers(jobs[..n], k);
    }
  }

  /** Dropping an id drops that entry of the table and no other. */
  lemma {:induction false} TableWithout(jobs: seq<Job>, id: string, k: string)
    requires DistinctKeys(jobs)
    ensures k in Table(Without(jobs, id)) <==> k in Table(jobs) && Table(jobs)[k].id != Val(id)
    ensures k in Table(Without(jobs, id)) ==> Table(Without(jobs, id))[k] == Table(jobs)[k]
  {
    if jobs != [] {
      var n := |jobs| - 1;
      var q, last := jobs[..n], jobs[n];
      TableWithout(q, id, k);
      if last.id == Val(id) {
        assert Without(jobs, id) == Without(q, id);
        KeyNotInFront(jobs);
      } else {
        TableAppend(Without(q, id), last);
      }
    }
  }

  lemma KeyNotInFront(jobs: seq<Job>)
    requires DistinctKeys(jobs) && jobs != []
    ensures KeyOf(jobs[|jobs| - 1]) !in Table(jobs[..|jobs| - 1])
  {
    KeysOfDistinct(jobs);
    KeysOfDistinct(jobs[..|jobs| - 1]);
  }

  lemma TableAppend(jobs: seq<Job>, j: Job)
    ensures Table(jobs + [j]) == Table(jobs)[KeyOf(j) := j]
  {
    assert (jobs + [j])[..|jobs|] == jobs;
  }

  lemma {:induction false} FindIn(jobs: seq<Job>, id: string, x: nat)
    requires DistinctKeys(jobs) && x < |jobs| && jobs[x].id == Val(id)
    ensures Find(jobs, id) == Some(jobs[x])
  {
    if x > 0 {
      assert KeyOf(jobs[0]) != KeyOf(jobs[x]);
      FindIn(jobs[1..], id, x - 1);
    }
  }

  lemma {:induction false} FindNone(jobs: seq<Job>, id: string)
    requires forall j :: j in jobs ==> j.id != Val(id)
    ensures Find(jobs, id) == None
  {
    if jobs != [] {
      assert jobs[0] in jobs;
      FindNone(jobs[1..], id);
    }
  }

  // ----- what a read sees after seeding -----

  /** A built-in id reads as the locked built-in job. */
  lemma FindBuiltin(jobs: seq<Job>, bs: seq<Job>, allowed: set<string>, b: Job)
    requires GoodBuiltins(bs, allowed) && b in bs
    ensures Find(Seed(jobs, bs).jobs, KeyOf(b)) == Some(SeedOne(Table(jobs), b))
  {
    var i :| 0 <= i < |bs| && bs[i] == b;
    SeedShapes(jobs, bs, allowed);
    BuiltinPlace(jobs, bs, i);
    FindIn(Seed(jobs, bs).jobs, KeyOf(b), i);
  }

  lemma BuiltinPlace(jobs: seq<Job>, bs: seq<Job>, i: nat)
    requires i < |bs|
    ensures i < |Seed(jobs, bs).jobs| && Seed(jobs, bs).jobs[i] == SeedOne(Table(jobs), bs[i])
  {
    SeededParts(jobs, bs);
    assert Seed(jobs, bs).jobs[i] == Seed(jobs, bs).jobs[..|bs|][i];
  }

  /** Any other id reads as its entry of the table. */
  lemma FindCustom(jobs: seq<Job>, bs: seq<Job>, allowed: set<string>, k: string)
    requires GoodBuiltins(bs, allowed) && !IsBuiltinKey(k, bs)
    ensures Find(Seed(jobs, bs).jobs, k)
      == if k in Table(jobs) && Table(jobs)[k].id == Val(k) then Some(Table(jobs)[k]) else None
  {
    var r, t := Seed(jobs, bs).jobs, Table(jobs);
    SeedShapes(jobs, bs, allowed);
    if k in t && t[k].id == Val(k) {
      var x := CustomAt(jobs, bs, k);
      FindIn(r, k, x);
    } else {
      forall x | 0 <= x < |r|
        ensures r[x].id != Val(k)
      {
        NotCustom(jobs, bs, allowed, k, x);
      }
      FindNone(r, k);
    }
  }

  lemma CustomAt(jobs: seq<Job>, bs: seq<Job>, k: string) returns (x: nat)
    requires k in Table(jobs) && !IsBuiltinKey(k, bs)
    ensures x < |Seed(jobs, bs).jobs| && Seed(jobs, bs).jobs[x] == Table(jobs)[k]
  {
    SeededParts(jobs, bs);
    x := InTail(Seed(jobs, bs).jobs, |bs|, Table(jobs)[k]);
  }

  lemma InTail(r: seq<Job>, n: nat, j: Job) returns (x: nat)
    requires n <= |r| && j in r[n..]
    ensures x < |r| && r[x] == j
  {
    var y: nat :| y < |r[n..]| && r[n..][y] == j;
    x := n + y;
  }

  lemma NotCustom(jobs: seq<Job>, bs: seq<Job>, allowed: set<string>, k: string, x: nat)
    requires GoodBuiltins(bs, allowed) && !IsBuiltinKey(k, bs)
    requires !(k in Table(jobs) && Table(jobs)[k].id == Val(k))
    requires x < |Seed(jobs, bs).jobs|
    ensures Seed(jobs, bs).jobs[x].id != Val(k)
  {
    var r := Seed(jobs, bs).jobs;
    if x < |bs| {
      SeededBuiltin(Table(jobs), bs, allowed, x);
      assert bs[x] in bs;
    } else {
      SeededParts(jobs, bs);
      assert r[|bs|..][x - |bs|] == r[x];
      assert r[x] in r[|bs|..];
    }
  }

  /** Two lists whose tables agree on an id read the same under it. */
  lemma SameEntrySameRead(jobs: seq<Job>, other: seq<Job>, bs: seq<Job>, allowed: set<string>, k: string)
    requires GoodBuiltins(bs, allowed)
    requires k in Table(jobs) <==> k in Table(other)
    requires k in Table(jobs) ==> Table(jobs)[k] == Table(other)[k]
    ensures Find(Seed(jobs, bs).jobs, k) == Find(Seed(other, bs).jobs, k)
  {
    if IsBuiltinKey(k, bs) {
      var b :| b in bs && KeyOf(b) == k;
      FindBuiltin(jobs, bs, allowed, b);
      FindBuiltin(other, bs, allowed, b);
    } else {
      FindCustom(jobs, bs, allowed, k);
      FindCustom(other, bs, allowed, k);
    }
  }

  /** The list a load returns is seeded, and another load returns it again. */
  lemma LoadIsStable(doc: Document, bs: seq<Job>, allowed: set<string>)
    requires GoodBuiltins(bs, allowed)
    ensures SeededShape(Loaded(doc, bs), bs)
    ensures Seed(Loaded(doc, bs), bs) == Seeded(Loaded(doc, bs), false)
    ensures Loaded(AfterLoad(doc, bs), bs) == Loaded(doc, bs)
  {
    var raw := if doc.Some? then doc.value else [];
    SeedShapes(raw, bs, allowed);
    SeedIsIdempotent(raw, bs, allowed);
  }

  lemma LoadedSeeded(jobs: seq<Job>, bs: seq<Job>, allowed: set<string>)
    requires GoodBuiltins(bs, allowed)
    ensures Loaded(Some(Seed(jobs, bs).jobs), bs) == Seed(jobs, bs).jobs
  {
    SeedIsIdempotent(jobs, bs, allowed);
  }

  // ----- upsert, then read -----

  lemma StripTwice(s: string)
    ensures Strip(Strip(s)) == Strip(s)
  {
    StripEnds(s);
  }

  lemma UpsertId(jobs: seq<Job>, inc: Job, generated: string, allowed: set<string>)
    requires UpsertRecord(jobs, inc, generated, allowed).Ok?
    ensures var id := Strip(TextOr(inc.id, ""));
      UpsertRecord(jobs, inc, generated, allowed).value.id
      == Val(if id == "" && Find(jobs, id).None? then Strip(generated) else id)
  {
    var id := Strip(TextOr(inc.id, ""));
    StripTwice(TextOr(inc.id, ""));
    if Find(jobs, id).Some? {
      FoundId(jobs, id);
    }
  }

  lemma {:induction false} FoundId(jobs: seq<Job>, id: string)
    requires Find(jobs, id).Some?
    ensures Find(jobs, id).value in jobs && Find(jobs, id).value.id == Val(id)
  {
    if jobs[0].id != Val(id) {
      FoundId(jobs[1..], id);
    }
  }

  /** A returned record that belongs to a built-in job is that job, locked. */
  lemma UpsertKeepsLock(doc: Document, bs: seq<Job>, allowed: set<string>, inc: Job, generated: string, b: Job)
    requires GoodBuiltins(bs, allowed) && b in bs
    requires UpsertRecord(Loaded(doc, bs), inc, generated, allowed).Ok?
    requires UpsertRecord(Loaded(doc, bs), inc, generated, allowed).value.id == b.id
    requires Strip(TextOr(inc.id, "")) == "" ==> !IsBuiltinKey(Strip(generated), bs)
    ensures Lock(b, UpsertRecord(Loaded(doc, bs), inc, generated, allowed).value)
      == UpsertRecord(Loaded(doc, bs), inc, generated, allowed).value
  {
    var jobs, id := Loaded(doc, bs), Strip(TextOr(inc.id, ""));
    UpsertId(jobs, inc, generated, allowed);
    FindBuiltin(if doc.Some? then doc.value else [], bs, allowed, b);
    assert id == KeyOf(b);
    LockedUpsert(jobs, bs, allowed, inc, generated, b);
  }

  lemma LockedUpsert(jobs: seq<Job>, bs: seq<Job>, allowed: set<string>, inc: Job, generated: string, b: Job)
    requires Complete(b, allowed) && b.builtin == Val(true) && b.deletable == Val(false)
    requires Find(jobs, Strip(TextOr(inc.id, ""))).Some?
    requires Lock(b, Find(jobs, Strip(TextOr(inc.id, ""))).value) == Find(jobs, Strip(TextOr(inc.id, ""))).value
    requires UpsertRecord(jobs, inc, generated, allowed).Ok?
    ensures Lock(b, UpsertRecord(jobs, inc, generated, allowed).value)
      == UpsertRecord(jobs, inc, generated, allowed).value
  {
    var e := Find(jobs, Strip(TextOr(inc.id, ""))).value;
    assert e.handler == b.handler && e.builtin == Val(true);
    NormalizedIsComplete(EditBuiltin(e, inc, Strip(TextOr(inc.id, ""))), allowed);
  }

  /** After a successful upsert, reading the job back gives exactly the record
      that was returned, and every other id reads as before, whatever the stored
      document was.  The id a caller leaves to be generated must not be a
      built-in one. */
  lemma UpsertReadsBack(doc: Document, bs: seq<Job>, allowed: set<string>, inc: Job, generated: string, k: string)
    requires GoodBuiltins(bs, allowed)
    requires Strip(TextOr(inc.id, "")) == "" ==> !IsBuiltinKey(Strip(generated), bs)
    requires UpsertRecord(Loaded(doc, bs), inc, generated, allowed).Ok?
    ensures var r := UpsertRecord(Loaded(doc, bs), inc, generated, allowed).value;
      Find(Loaded(Apply(doc, UpsertOp(inc, generated), bs, allowed), bs), k)
      == if r.id == Val(k) then Some(r) else Find(Loaded(doc, bs), k)
  {
    var r := UpsertRecord(Loaded(doc, bs), inc, generated, allowed).value;
    UpsertedList(doc, bs, allowed, inc, generated);
    if r.id == Val(k) {
      ReadsItself(doc, bs, allowed, inc, generated, Without(Loaded(doc, bs), k));
    } else {
      ReadsOthers(doc, bs, allowed, r, k);
    }
  }

  lemma UpsertedList(doc: Document, bs: seq<Job>, allowed: set<string>, inc: Job, generated: string)
    requires GoodBuiltins(bs, allowed)
    requires UpsertRecord(Loaded(doc, bs), inc, generated, allowed).Ok?
    ensures var r := UpsertRecord(Loaded(doc, bs), inc, generated, allowed).value;
      r.id.Val? && Loaded(Apply(doc, UpsertOp(inc, generated), bs, allowed), bs)
                   == Seed(Without(Loaded(doc, bs), r.id.value) + [r], bs).jobs
  {
    var r := UpsertRecord(Loaded(doc, bs), inc, generated, allowed).value;
    UpsertId(Loaded(doc, bs), inc, generated, allowed);
    ApplyStores(doc, bs, allowed, inc, generated, r);
    StoredIsLoaded(Loaded(doc, bs), bs, allowed, r);
  }

  lemma ApplyStores(doc: Document, bs: seq<Job>, allowed: set<string>, inc: Job, generated: string, r: Job)
    requires UpsertRecord(Loaded(doc, bs), inc, generated, allowed) == Ok(r) && r.id.Val?
    ensures Apply(doc, UpsertOp(inc, generated), bs, allowed) == Some(Stored(Loaded(doc, bs), r, bs))
  {
  }

  lemma StoredIsLoaded(jobs: seq<Job>, bs: seq<Job>, allowed: set<string>, r: Job)
    requires GoodBuiltins(bs, allowed) && r.id.Val?
    ensures Loaded(Some(Stored(jobs, r, bs)), bs) == Seed(Without(jobs, r.id.value) + [r], bs).jobs
  {
    LoadedSeeded(Without(jobs, r.id.value) + [r], bs, allowed);
  }

  lemma ReadsOthers(doc: Document, bs: seq<Job>, allowed: set<string>, r: Job, k: string)
    requires GoodBuiltins(bs, allowed) && r.id.Val? && r.id.value != k
    ensures Find(Seed(Without(Loaded(doc, bs), r.id.value) + [r], bs).jobs, k) == Find(Loaded(doc, bs), k)
  {
    var jobs := Loaded(doc, bs);
    LoadIsStable(doc, bs, allowed);
    TableAppend(Without(jobs, r.id.value), r);
    DeletedEntry(jobs, r.id.value, k);
    SameEntrySameRead(Without(jobs, r.id.value) + [r], jobs, bs, allowed, k);
  }

  lemma ReadsItself(doc: Document, bs: seq<Job>, allowed: set<string>, inc: Job, generated: string, kept: seq<Job>)
    requires GoodBuiltins(bs, allowed)
    requires Strip(TextOr(inc.id, "")) == "" ==> !IsBuiltinKey(Strip(generated), bs)
    requires UpsertRecord(Loaded(doc, bs), inc, generated, allowed).Ok?
    ensures var r := UpsertRecord(Loaded(doc, bs), inc, generated, allowed).value;
      r.id.Val? && Find(Seed(kept + [r], bs).jobs, r.id.value) == Some(r)
  {
    var r := UpsertRecord(Loaded(doc, bs), inc, generated, allowed).value;
    UpsertId(Loaded(doc, bs), inc, generated, allowed);
    TableAppend(kept, r);
    if IsBuiltinKey(r.id.value, bs) {
      var b :| b in bs && KeyOf(b) == r.id.value;
      UpsertKeepsLock(doc, bs, allowed, inc, generated, b);
      FindBuiltin(kept + [r], bs, allowed, b);
    } else {
      FindCustom(kept + [r], bs, allowed, r.id.value);
    }
  }

  // ----- delete, then read -----

  /** After a successful delete the id reads as missing and every other id reads
      as before. */
  lemma DeleteReadsNothing(doc: Document, bs: seq<Job>, allowed: set<string>, id: string, k: string)
    requires GoodBuiltins(bs, allowed) && DeleteCheck(Loaded(doc, bs), id).Ok?
    ensures Find(Loaded(Apply(doc, DeleteOp(id), bs, allowed), bs), k)
      == if k == id then None else Find(Loaded(doc, bs), k)
  {
    DeletedList(doc, bs, allowed, id);
    ReadsWithout(doc, bs, allowed, id, k);
  }

  lemma DeletedList(doc: Document, bs: seq<Job>, allowed: set<string>, id: string)
    requires GoodBuiltins(bs, allowed) && DeleteCheck(Loaded(doc, bs), id).Ok?
    ensures Loaded(Apply(doc, DeleteOp(id), bs, allowed), bs) == Seed(Without(Loaded(doc, bs), id), bs).jobs
  {
    DeletedDocument(doc, Loaded(doc, bs), bs, allowed, id);
    LoadedSeeded(Without(Loaded(doc, bs), id), bs, allowed);
  }

  lemma DeletedDocument(doc: Document, jobs: seq<Job>, bs: seq<Job>, allowed: set<string>, id: string)
    requires jobs == Loaded(doc, bs) && DeleteCheck(jobs, id).Ok?
    ensures Apply(doc, DeleteOp(id), bs, allowed) == Some(Seed(Without(jobs, id), bs).jobs)
  {
  }

  lemma ReadsWithout(doc: Document, bs: seq<Job>, allowed: set<string>, id: string, k: string)
    requires GoodBuiltins(bs, allowed) && DeleteCheck(Loaded(doc, bs), id).Ok?
    ensures Find(Seed(Without(Loaded(doc, bs), id), bs).jobs, k) == if k == id then None else Find(Loaded(doc, bs), k)
  {
    var jobs := Loaded(doc, bs);
    LoadIsStable(doc, bs, allowed);
    if k == id {
      OnlyCustomIsDeletable(doc, bs, allowed, id);
      FindCustom(Without(jobs, id), bs, allowed, id);
      TableWithout(jobs, id, id);
    } else {
      DeletedEntry(jobs, id, k);
      SameEntrySameRead(Without(jobs, id), jobs, bs, allowed, k);
    }
  }

  lemma DeletedEntry(jobs: seq<Job>, id: string, k: string)
    requires DistinctKeys(jobs) && k != id
    ensures k in Table(Without(jobs, id)) <==> k in Table(jobs)
    ensures k in Table(jobs) ==> Table(Without(jobs, id))[k] == Table(jobs)[k]
  {
    TableWithout(jobs, id, k);
  }

  /** No document makes a built-in job deletable. */
  lemma OnlyCustomIsDeletable(doc: Document, bs: seq<Job>, allowed: set<string>, id: string)
    requires GoodBuiltins(bs, allowed)
    ensures IsBuiltinKey(id, bs) ==> DeleteCheck(Loaded(doc, bs), id) == Failed(NotDeletable)
  {
    if IsBuiltinKey(id, bs) {
      var b :| b in bs && KeyOf(b) == id;
      FindBuiltin(if doc.Some? then doc.value else [], bs, allowed, b);
    }
  }

  /** Loads, failed upserts and failed deletes change nothing a read can see. */
  lemma FailuresChangeNothing(doc: Document, op: Op, bs: seq<Job>, allowed: set<string>)
    requires GoodBuiltins(bs, allowed)
    requires op.UpsertOp? ==> UpsertRecord(Loaded(doc, bs), op.job, op.generated, allowed).Failed?
    requires op.DeleteOp? ==> DeleteCheck(Loaded(doc, bs), op.id).Failed?
    ensures Loaded(Apply(doc, op, bs, allowed), bs) == Loaded(doc, bs)
  {
    LoadIsStable(doc, bs, allowed);
  }

  // ----- runs -----

  /** A list as every run leaves it: the built-in jobs first, in their fixed
      order and with their identity fields locked, ids distinct, every record
      complete with an allowed handler and a schedule, and exactly the built-in
      jobs flagged as built-in. */
  ghost predicate Healthy(jobs: seq<Job>, bs: seq<Job>, allowed: set<string>) {
    && SeededShape(jobs, bs)
    && forall i :: 0 <= i < |jobs| ==> Complete(jobs[i], allowed) && jobs[i].builtin == Val(i < |bs|)
  }

  ghost predicate Sound(j: Job, bs: seq<Job>, allowed: set<string>) {
    Complete(j, allowed) && (IsBuiltinKey(KeyOf(j), bs) || j.builtin == Val(false))
  }

  lemma LockIsComplete(b: Job, e: Job, allowed: set<string>)
    requires Complete(b, allowed) && Complete(e, allowed)
    ensures Complete(Lock(b, e), allowed) && Lock(b, e).builtin == b.builtin
  {
  }

  lemma SeedIsHealthy(jobs: seq<Job>, bs: seq<Job>, allowed: set<string>)
    requires GoodBuiltins(bs, allowed)
    requires forall j :: j in jobs ==> Sound(j, bs, allowed)
    ensures Healthy(Seed(jobs, bs).jobs, bs, allowed)
  {
    var r := Seed(jobs, bs).jobs;
    SeedShapes(jobs, bs, allowed);
    forall i | 0 <= i < |r|
      ensures Complete(r[i], allowed) && r[i].builtin == Val(i < |bs|)
    {
      if i < |bs| {
        FrontIsHealthy(jobs, bs, allowed, i);
      } else {
        RestIsHealthy(jobs, bs, allowed, i);
      }
    }
  }

  lemma FrontIsHealthy(jobs: seq<Job>, bs: seq<Job>, allowed: set<string>, i: nat)
    requires GoodBuiltins(bs, allowed) && i < |bs|
    requires forall j :: j in jobs ==> Sound(j, bs, allowed)
    ensures Complete(Seed(jobs, bs).jobs[i], allowed) && Seed(jobs, bs).jobs[i].builtin == Val(true)
  {
    var b := bs[i];
    assert b in bs;
    assert Seed(jobs, bs).jobs[i] == SeedOne(Table(jobs), b);
    if KeyOf(b) in Table(jobs) {
      TableMembers(jobs, KeyOf(b));
      LockIsComplete(b, Table(jobs)[KeyOf(b)], allowed);
    }
  }

  lemma RestIsHealthy(jobs: seq<Job>, bs: seq<Job>, allowed: set<string>, i: nat)
    requires GoodBuiltins(bs, allowed) && |bs| <= i < |Seed(jobs, bs).jobs|
    requires forall j :: j in jobs ==> Sound(j, bs, allowed)
    ensures Complete(Seed(jobs, bs).jobs[i], allowed) && Seed(jobs, bs).jobs[i].builtin == Val(false)
  {
    var k := RestMember(jobs, bs, i);
    TableMembers(jobs, k);
    assert Sound(Table(jobs)[k], bs, allowed);
  }

  lemma RestMember(jobs: seq<Job>, bs: seq<Job>, i: nat) returns (k: string)
    requires |bs| <= i < |Seed(jobs, bs).jobs|
    ensures k in Table(jobs) && Table(jobs)[k] == Seed(jobs, bs).jobs[i] && !IsBuiltinKey(k, bs)
  {
    var r := Seed(jobs, bs).jobs;
    k := KeyOf(r[i]);
    SeededParts(jobs, bs);
    assert r[|bs|..][i - |bs|] == r[i];
    assert r[i] in r[|bs|..];
  }

  lemma HealthyIsSound(jobs: seq<Job>, bs: seq<Job>, allowed: set<string>, j: Job)
    requires Healthy(jobs, bs, allowed) && j in jobs
    ensures Sound(j, bs, allowed)
  {
    var i :| 0 <= i < |jobs| && jobs[i] == j;
    if i < |bs| {
      assert bs[i] in bs && KeyOf(bs[i]) == KeyOf(j);
    }
  }

  lemma {:induction false} WithoutMembers(jobs: seq<Job>, id: string, j: Job)
    requires j in Without(jobs, id)
    ensures j in jobs
  {
    var n := |jobs| - 1;
    if !(jobs[n].id != Val(id) && j == jobs[n]) {
      WithoutMembers(jobs[..n], id, j);
    }
  }

  /** A record an upsert of a healthy list returns is sound. */
  lemma UpsertIsSound(jobs: seq<Job>, bs: seq<Job>, allowed: set<string>, inc: Job, generated: string)
    requires Healthy(jobs, bs, allowed) && UpsertRecord(jobs, inc, generated, allowed).Ok?
    ensures Sound(UpsertRecord(jobs, inc, generated, allowed).value, bs, allowed)
  {
    var id := Strip(TextOr(inc.id, ""));
    UpsertId(jobs, inc, generated, allowed);
    if Find(jobs, id).Some? && Truth(Find(jobs, id).value.builtin, false) {
      FoundId(jobs, id);
      BuiltinIsSound(jobs, bs, allowed, Find(jobs, id).value, inc, id);
    } else {
      var named := if Find(jobs, id).None? && id == "" then inc.(id := Val(generated)) else inc;
      CustomIsSound(if Find(jobs, id).None? then NewCustom(named) else MergeCustom(Find(jobs, id).value, named),
                    bs, allowed);
    }
  }

  lemma CustomIsSound(raw: Job, bs: seq<Job>, allowed: set<string>)
    requires Normalize(raw, allowed).Ok? && Normalize(raw, allowed).value.builtin != Val(true)
    ensures Sound(Normalize(raw, allowed).value, bs, allowed)
  {
    NormalizedIsComplete(raw, allowed);
  }

  lemma BuiltinIsSound(jobs: seq<Job>, bs: seq<Job>, allowed: set<string>, e: Job, inc: Job, id: string)
    requires Healthy(jobs, bs, allowed) && e in jobs && e.id == Val(id) && Truth(e.builtin, false)
    requires Normalize(EditBuiltin(e, inc, id), allowed).Ok?
    ensures var r := Normalize(EditBuiltin(e, inc, id), allowed).value;
      Sound(r.(builtin := Val(true), deletable := Val(false), handler := Val(TextOr(e.handler, r.handler.value))),
            bs, allowed)
  {
    HealthyIsSound(jobs, bs, allowed, e);
    NormalizedIsComplete(EditBuiltin(e, inc, id), allowed);
  }

  lemma LoadKeepsHealthy(doc: Document, bs: seq<Job>, allowed: set<string>)
    requires GoodBuiltins(bs, allowed) && (doc.Some? ==> Healthy(doc.value, bs, allowed))
    ensures Healthy(Loaded(doc, bs), bs, allowed)
  {
    forall j | j in (if doc.Some? then doc.value else [])
      ensures Sound(j, bs, allowed)
    {
      HealthyIsSound(doc.value, bs, allowed, j);
    }
    SeedIsHealthy(if doc.Some? then doc.value else [], bs, allowed);
  }

  lemma AfterLoadIsHealthy(doc: Document, bs: seq<Job>, allowed: set<string>)
    requires GoodBuiltins(bs, allowed) && (doc.Some? ==> Healthy(doc.value, bs, allowed))
    ensures AfterLoad(doc, bs).Some? && Healthy(AfterLoad(doc, bs).value, bs, allowed)
  {
    LoadKeepsHealthy(doc, bs, allowed);
  }

  lemma ApplyKeepsHealthy(doc: Document, op: Op, bs: seq<Job>, allowed: set<string>)
    requires GoodBuiltins(bs, allowed) && (doc.Some? ==> Healthy(doc.value, bs, allowed))
    ensures Apply(doc, op, bs, allowed).Some? && Healthy(Apply(doc, op, bs, allowed).value, bs, allowed)
  {
    AfterLoadIsHealthy(doc, bs, allowed);
    match op
    case LoadOp =>
    case UpsertOp(inc, generated) =>
      ApplyUpsertKeepsHealthy(doc, bs, allowed, inc, generated);
    case DeleteOp(id) =>
      ApplyDeleteKeepsHealthy(doc, bs, allowed, id);
  }

  lemma ApplyUpsertKeepsHealthy(doc: Document, bs: seq<Job>, allowed: set<string>, inc: Job, generated: string)
    requires GoodBuiltins(bs, allowed) && (doc.Some? ==> Healthy(doc.value, bs, allowed))
    ensures var after := Apply(doc, UpsertOp(inc, generated), bs, allowed);
      after.Some? && Healthy(after.value, bs, allowed)
  {
    var jobs := Loaded(doc, bs);
    if UpsertRecord(jobs, inc, generated, allowed).Ok? {
      LoadKeepsHealthy(doc, bs, allowed);
      UpsertKeepsHealthy(jobs, bs, allowed, inc, generated);
      UpsertedDocument(doc, jobs, bs, allowed, inc, generated);
    } else {
      AfterLoadIsHealthy(doc, bs, allowed);
    }
  }

  lemma UpsertedDocument(doc: Document, jobs: seq<Job>, bs: seq<Job>, allowed: set<string>, inc: Job, generated: string)
    requires jobs == Loaded(doc, bs) && UpsertRecord(jobs, inc, generated, allowed).Ok?
    requires UpsertRecord(jobs, inc, generated, allowed).value.id.Val?
    ensures Apply(doc, UpsertOp(inc, generated), bs, allowed)
      == Some(Stored(jobs, UpsertRecord(jobs, inc, generated, allowed).value, bs))
  {
  }

  lemma ApplyDeleteKeepsHealthy(doc: Document, bs: seq<Job>, allowed: set<string>, id: string)
    requires GoodBuiltins(bs, allowed) && (doc.Some? ==> Healthy(doc.value, bs, allowed))
    ensures var after := Apply(doc, DeleteOp(id), bs, allowed); after.Some? && Healthy(after.value, bs, allowed)
  {
    if DeleteCheck(Loaded(doc, bs), id).Ok? {
      DeletedDocument(doc, Loaded(doc, bs), bs, allowed, id);
      LoadKeepsHealthy(doc, bs, allowed);
      WithoutKeepsHealthy(Loaded(doc, bs), bs, allowed, id);
    } else {
      AfterLoadIsHealthy(doc, bs, allowed);
    }
  }

  lemma UpsertKeepsHealthy(jobs: seq<Job>, bs: seq<Job>, allowed: set<string>, inc: Job, generated: string)
    requires GoodBuiltins(bs, allowed) && Healthy(jobs, bs, allowed)
    requires UpsertRecord(jobs, inc, generated, allowed).Ok?
    ensures var r := UpsertRecord(jobs, inc, generated, allowed).value;
      r.id.Val? && Healthy(Stored(jobs, r, bs), bs, allowed)
  {
    UpsertId(jobs, inc, generated, allowed);
    UpsertIsSound(jobs, bs, allowed, inc, generated);
    StoredIsHealthy(jobs, bs, allowed, UpsertRecord(jobs, inc, generated, allowed).value);
  }

  lemma StoredIsHealthy(jobs: seq<Job>, bs: seq<Job>, allowed: set<string>, r: Job)
    requires GoodBuiltins(bs, allowed) && Healthy(jobs, bs, allowed) && r.id.Val? && Sound(r, bs, allowed)
    ensures Healthy(Stored(jobs, r, bs), bs, allowed)
  {
    var kept := Without(jobs, r.id.value);
    forall j | j in kept + [r]
      ensures Sound(j, bs, allowed)
    {
      if j in kept {
        WithoutMembers(jobs, r.id.value, j);
        HealthyIsSound(jobs, bs, allowed, j);
      }
    }
    SeedIsHealthy(kept + [r], bs, allowed);
  }

  lemma WithoutKeepsHealthy(jobs: seq<Job>, bs: seq<Job>, allowed: set<string>, id: string)
    requires GoodBuiltins(bs, allowed) && Healthy(jobs, bs, allowed)
    ensures Healthy(Seed(Without(jobs, id), bs).jobs, bs, allowed)
  {
    forall j | j in Without(jobs, id)
      ensures Sound(j, bs, allowed)
    {
      WithoutMembers(jobs, id, j);
      HealthyIsSound(jobs, bs, allowed, j);
    }
    SeedIsHealthy(Without(jobs, id), bs, allowed);
  }

  /** Every run of loads, upserts and deletes that starts with no document ends
      with a healthy one. */
  lemma {:induction false} RunsStayHealthy(ops: seq<Op>, bs: seq<Job>, allowed: set<string>)
    requires GoodBuiltins(bs, allowed)
    ensures ops != [] ==> RunOps(ops, bs, allowed).Some?
    ensures RunOps(ops, bs, allowed).Some? ==> Healthy(RunOps(ops, bs, allowed).value, bs, allowed)
  {
    if ops != [] {
      var n := |ops| - 1;
      RunsStayHealthy(ops[..n], bs, allowed);
      ApplyKeepsHealthy(RunOps(ops[..n], bs, allowed), ops[n], bs, allowed);
    }
  }

  /** One job of a healthy list: its id is its own, it is built-in exactly when
      it is one of the first |bs|, those keep id, handler and deletable=false, and
      it has an allowed handler and a schedule. */
  ghost predicate WellKept(jobs: seq<Job>, bs: seq<Job>, allowed: set<string>, i: nat)
    requires i < |jobs|
  {
    && jobs[i].handler.Val? && jobs[i].handler.value in allowed && !BlankField(jobs[i].schedule)
    && (jobs[i].builtin == Val(true) <==> i < |bs|)
    && (i < |bs| ==> jobs[i].id == bs[i].id && jobs[i].handler == bs[i].handler && jobs[i].deletable == Val(false))
    && forall k :: 0 <= k < |jobs| && k != i ==> jobs[k].id != jobs[i].id
  }

  lemma HealthyIsWellKept(jobs: seq<Job>, bs: seq<Job>, allowed: set<string>, i: nat)
    requires GoodBuiltins(bs, allowed) && Healthy(jobs, bs, allowed) && i < |jobs|
    ensures WellKept(jobs, bs, allowed, i)
  {
    TidyIsNotBlank(jobs[i].schedule);
    forall k | 0 <= k < |jobs| && k != i
      ensures jobs[k].id != jobs[i].id
    {
      assert KeyOf(jobs[k]) != KeyOf(jobs[i]);
    }
    if i < |bs| {
      assert bs[i] in bs && KeyOf(jobs[i]) == KeyOf(bs[i]) && Lock(bs[i], jobs[i]) == jobs[i];
    }
  }

  /** Over every run, every stored job is well kept. */
  lemma EveryRun(ops: seq<Op>, bs: seq<Job>, allowed: set<string>)
    requires GoodBuiltins(bs, allowed)
    ensures RunOps(ops, bs, allowed).Some? ==>
      var jobs := RunOps(ops, bs, allowed).value;
      |bs| <= |jobs| && forall i :: 0 <= i < |jobs| ==> WellKept(jobs, bs, allowed, i)
  {
    RunsStayHealthy(ops, bs, allowed);
    if RunOps(ops, bs, allowed).Some? {
      var jobs := RunOps(ops, bs, allowed).value;
      forall i | 0 <= i < |jobs|
        ensures WellKept(jobs, bs, allowed, i)
      {
        HealthyIsWellKept(jobs, bs, allowed, i);
      }
    }
  }

  // ----- what an upsert edits -----

  /** A field the caller leaves out keeps its text; a given one is stripped, and
      filled in when nothing is left of it. */
  predicate Edited(before: Field<string>, given: Field<string>, after: Field<string>, filled: string) {
    after == if given.Absent? then before else Val(OrElse(Strip(TextOr(given, "")), filled))
  }

  /** A flag the caller leaves out stays; a given null counts as false. */
  predicate Switched(before: Field<bool>, given: Field<bool>, after: Field<bool>) {
    after == if given.Absent? then before else Val(given == Val(true))
  }

  predicate EditedAlike(e: Job, inc: Job, r: Job) {
    && r.id == e.id && r.builtin == e.builtin
    && Edited(e.schedule, inc.schedule, r.schedule, "")
    && Edited(e.timezone, inc.timezone, r.timezone, "UTC")
    && Edited(e.notes, inc.notes, r.notes, "")
    && Switched(e.enabled, inc.enabled, r.enabled)
  }

  /** A built-in job keeps handler and deletable=false, and it keeps its name and
      metadata when what is given for them is null, empty or no object. */
  predicate EditedBuiltin(e: Job, inc: Job, r: Job, id: string) {
    && EditedAlike(e, inc, r) && r.handler == e.handler && r.deletable == Val(false)
    && (if inc.name.Val? && inc.name.value == "" then r.name == e.name
        else if inc.name.Null? then r.name == e.name else Edited(e.name, inc.name, r.name, id))
    && r.metadata == if inc.metadata.Val? && inc.metadata.value.Dict? then inc.metadata else e.metadata
  }

  predicate EditedCustom(e: Job, inc: Job, r: Job, id: string) {
    && EditedAlike(e, inc, r)
    && Edited(e.handler, inc.handler, r.handler, "") && Switched(e.deletable, inc.deletable, r.deletable)
    && Edited(e.name, inc.name, r.name, id)
    && r.metadata == (
      match inc.metadata
      case Absent => e.metadata
      case Null => Val(Dict(map[]))
      case Val(_) => inc.metadata)
  }

  /** What a caller may not give: a blank schedule, and for a custom job a blank or
      unknown handler, metadata that is no object, or the built-in flag. */
  predicate Refused(e: Job, inc: Job, allowed: set<string>) {
    || (!inc.schedule.Absent? && BlankField(inc.schedule))
    || (e.builtin == Val(false)
        && (|| (!inc.handler.Absent? && (BlankField(inc.handler) || Strip(TextOr(inc.handler, "")) !in allowed))
            || (inc.metadata.Val? && inc.metadata.value.NotDict?)
            || inc.builtin == Val(true)))
  }

  /** An upsert of a stored job, built-in or custom, fails exactly when it gives
      what it may not; otherwise it changes exactly the fields the caller gives. */
  lemma UpsertEditsGivenFields(jobs: seq<Job>, inc: Job, generated: string, allowed: set<string>)
    requires Find(jobs, Strip(TextOr(inc.id, ""))).Some?
    requires Complete(Find(jobs, Strip(TextOr(inc.id, ""))).value, allowed)
    ensures var id := Strip(TextOr(inc.id, "")); var e := Find(jobs, id).value;
      var r := UpsertRecord(jobs, inc, generated, allowed);
      && (r.Failed? <==> Refused(e, inc, allowed))
      && (r.Ok? ==> if e.builtin == Val(true) then EditedBuiltin(e, inc, r.value, id)
                    else EditedCustom(e, inc, r.value, id))
  {
    var id := Strip(TextOr(inc.id, ""));
    FoundId(jobs, id);
    var e := Find(jobs, id).value;
    if e.builtin == Val(true) {
      BuiltinRefused(e, inc, id, allowed);
      var n := Normalize(EditBuiltin(e, inc, id), allowed);
      if n.Ok? {
        BuiltinEdits(e, inc, id, n.value, allowed);
      }
    } else {
      CustomRefused(e, inc, allowed);
      var n := Normalize(MergeCustom(e, inc), allowed);
      if n.Ok? && n.value.builtin != Val(true) {
        CustomEdits(e, inc, id, n.value, allowed);
      }
    }
  }

  lemma BuiltinRefused(e: Job, inc: Job, id: string, allowed: set<string>)
    requires Complete(e, allowed) && e.id == Val(id) && e.builtin == Val(true)
    ensures Normalize(EditBuiltin(e, inc, id), allowed).Failed? <==> Refused(e, inc, allowed)
  {
    StripTwice(TextOr(inc.schedule, ""));
    assert Strip("") == "";
  }

  lemma BuiltinTexts(e: Job, inc: Job, id: string, r: Job, allowed: set<string>)
    requires Complete(e, allowed) && e.id == Val(id) && e.builtin == Val(true)
    requires Normalize(EditBuiltin(e, inc, id), allowed) == Ok(r)
    ensures EditedAlike(e, inc, r) && r.handler == e.handler
  {
    StripTwice(TextOr(inc.schedule, ""));
    StripTwice(TextOr(inc.timezone, "UTC"));
    StripTwice(TextOr(inc.notes, ""));
    UtcIsStripped();
    assert Strip("") == "";
  }

  lemma BuiltinEdits(e: Job, inc: Job, id: string, r: Job, allowed: set<string>)
    requires Complete(e, allowed) && e.id == Val(id) && e.builtin == Val(true)
    requires Normalize(EditBuiltin(e, inc, id), allowed) == Ok(r)
    ensures EditedBuiltin(e, inc, r.(builtin := Val(true), deletable := Val(false)), id)
  {
    BuiltinTexts(e, inc, id, r, allowed);
    StripTwice(TextOr(inc.name, TextOr(e.name, id)));
    assert Strip("") == "";
  }

  lemma CustomRefused(e: Job, inc: Job, allowed: set<string>)
    requires Complete(e, allowed) && e.builtin == Val(false) && Val(Strip(TextOr(inc.id, ""))) == e.id
    ensures var n := Normalize(MergeCustom(e, inc), allowed);
      n.Failed? || n.value.builtin == Val(true) <==> Refused(e, inc, allowed)
  {
    assert Strip("") == "";
  }

  lemma CustomTexts(e: Job, inc: Job, r: Job, allowed: set<string>)
    requires Complete(e, allowed) && e.builtin == Val(false) && Val(Strip(TextOr(inc.id, ""))) == e.id
    requires Normalize(MergeCustom(e, inc), allowed) == Ok(r) && r.builtin != Val(true)
    ensures EditedAlike(e, inc, r)
  {
    UtcIsStripped();
    assert Strip("") == "";
  }

  lemma CustomEdits(e: Job, inc: Job, id: string, r: Job, allowed: set<string>)
    requires Complete(e, allowed) && e.id == Val(id) && e.builtin == Val(false) && Strip(TextOr(inc.id, "")) == id
    requires Normalize(MergeCustom(e, inc), allowed) == Ok(r) && r.builtin != Val(true)
    ensures EditedCustom(e, inc, r, id)
  {
    CustomTexts(e, inc, r, allowed);
    assert Strip("") == "";
  }

  /** What a new job gets where the caller says nothing. */
  lemma NewJobDefaults(jobs: seq<Job>, inc: Job, generated: string, allowed: set<string>)
    requires Find(jobs, Strip(TextOr(inc.id, ""))).None?
    requires UpsertRecord(jobs, inc, generated, allowed).Ok?
    ensures var r := UpsertRecord(jobs, inc, generated, allowed).value;
      && (inc.name.Absent? ==> r.name == r.id) && (inc.timezone.Absent? ==> r.timezone == Val("UTC"))
      && (inc.enabled.Absent? ==> r.enabled == Val(true)) && (inc.deletable.Absent? ==> r.deletable == Val(true))
      && (inc.notes.Absent? ==> r.notes == Val("")) && (inc.metadata.Absent? ==> r.metadata == Val(Dict(map[])))
      && r.builtin == Val(false)
  {
    var id := Strip(TextOr(inc.id, ""));
    StripTwice(TextOr(inc.id, ""));
    StripTwice(generated);
    StripTwice(id);
    UtcIsStripped();
    assert Strip("") == "";
  }
}
