/** Cron jobs as the configuration stores them: partial records, what makes one
    complete, and the seeding of the built-in jobs. */
module CronJobs {
  import opened Common
  import opened Text

  /** A key of a stored object: not there, null, or a value. */
  datatype Field<T> = Absent | Null | Val(value: T)

  /** A stored metadata value; a value that is no object may count as false. */
  datatype Metadata = Dict(items: map<string, string>) | NotDict(falsy: bool)

  datatype Job = Job(
    id: Field<string>, name: Field<string>, handler: Field<string>, schedule: Field<string>,
    timezone: Field<string>, enabled: Field<bool>, builtin: Field<bool>, deletable: Field<bool>,
    notes: Field<string>, metadata: Field<Metadata>)

  datatype CronError =
    | JobIdRequired | HandlerRequired | UnsupportedHandler | ScheduleRequired | MetadataNotObject
    | BuiltinViaApi | JobNotFound | NotDeletable

  datatype Result<T> = Ok(value: T) | Failed(error: CronError)

  /** str(raw.get(key) or default). */
  function TextOr(f: Field<string>, default: string): string {
    if f.Val? && f.value != "" then f.value else default
  }

  function Truth(f: Field<bool>, default: bool): bool {
    match f
    case Absent => default
    case Null => false
    case Val(b) => b
  }

  predicate BlankField(f: Field<string>) {
    Strip(TextOr(f, "")) == ""
  }

  function OrElse(s: string, default: string): string {
    if s == "" then default else s
  }

  /** The complete record a partial one stands for, or why there is none. */
  function Normalize(raw: Job, allowed: set<string>): Result<Job> {
    var id := Strip(TextOr(raw.id, ""));
    var handler := Strip(TextOr(raw.handler, ""));
    var schedule := Strip(TextOr(raw.schedule, ""));
    if id == "" then Failed(JobIdRequired)
    else if handler == "" then Failed(HandlerRequired)
    else if handler !in allowed then Failed(UnsupportedHandler)
    else if schedule == "" then Failed(ScheduleRequired)
    else if raw.metadata.Val? && raw.metadata.value.NotDict? then Failed(MetadataNotObject)
    else
      Ok(Job(Val(id), Val(OrElse(Strip(TextOr(raw.name, id)), id)), Val(handler), Val(schedule),
             Val(OrElse(Strip(TextOr(raw.timezone, "UTC")), "UTC")), Val(Truth(raw.enabled, true)),
             Val(Truth(raw.builtin, false)), Val(Truth(raw.deletable, !Truth(raw.builtin, false))),
             Val(Strip(TextOr(raw.notes, ""))),
             if raw.metadata.Val? then raw.metadata else Val(Dict(map[]))))
  }

  /** A text, not blank, with no space around it. */
  predicate Tidy(f: Field<string>) {
    f.Val? && f.value != "" && Strip(f.value) == f.value
  }

  /** A record that needs no completion. */
  predicate Complete(j: Job, allowed: set<string>) {
    && Tidy(j.id) && Tidy(j.handler) && j.handler.value in allowed
    && Tidy(j.schedule) && Tidy(j.name) && Tidy(j.timezone)
    && j.enabled.Val? && j.builtin.Val? && j.deletable.Val?
    && j.notes.Val? && Strip(j.notes.value) == j.notes.value
    && j.metadata.Val? && j.metadata.value.Dict?
  }

  lemma TidyIsNotBlank(f: Field<string>)
    requires Tidy(f)
    ensures !BlankField(f)
  {
  }

  lemma NormalizedIsComplete(raw: Job, allowed: set<string>)
    requires Normalize(raw, allowed).Ok?
    ensures Complete(Normalize(raw, allowed).value, allowed)
  {
    StripEnds(TextOr(raw.id, ""));
    StripEnds(TextOr(raw.handler, ""));
    StripEnds(TextOr(raw.schedule, ""));
    StripEnds(TextOr(raw.timezone, "UTC"));
    StripEnds(TextOr(raw.notes, ""));
    var id := Strip(TextOr(raw.id, ""));
    StripEnds(TextOr(raw.name, id));
    UtcIsStripped();
  }

  lemma UtcIsStripped()
    ensures Strip("UTC") == "UTC"
  {
    assert StripLeft("UTC") == "UTC" && StripRight("UTC") == "UTC";
  }

  /** A complete record is its own normal form, field by field; so normalising
      twice is normalising once. */
  lemma NormalizeKeepsComplete(j: Job, allowed: set<string>)
    requires Complete(j, allowed)
    ensures Normalize(j, allowed) == Ok(j)
  {
    assert Strip("") == "";
  }

  // ----- seeding -----

  /** The key of a job in the seeding table: str(item.get("job_id")). */
  function KeyOf(j: Job): string {
    if j.id.Val? then j.id.value else "None"
  }

  /** The keys, each where it first occurs. */
  function Keys(jobs: seq<Job>): seq<string> {
    if jobs == [] then []
    else
      var q, k := Keys(jobs[..|jobs| - 1]), KeyOf(jobs[|jobs| - 1]);
      if k in q then q else q + [k]
  }

  /** The table: a later job replaces an earlier one with the same key. */
  function Table(jobs: seq<Job>): (t: map<string, Job>)
    ensures forall k :: k in t <==> k in Keys(jobs)
    ensures forall k :: k in t ==> KeyOf(t[k]) == k
  {
    if jobs == [] then map[]
    else
      var last := jobs[|jobs| - 1];
      Table(jobs[..|jobs| - 1])[KeyOf(last) := last]
  }

  datatype Seeded = Seeded(jobs: seq<Job>, changed: bool)

  /** A built-in job as it is after seeding: identity fields locked, missing
      fields filled, the rest as the user left it. */
  function Lock(b: Job, existing: Job): Job {
    existing.(
      handler := b.handler, builtin := b.builtin, deletable := b.deletable,
      enabled := if existing.enabled.Absent? then b.enabled else existing.enabled,
      schedule := if BlankField(existing.schedule) then b.schedule else existing.schedule,
      name := if BlankField(existing.name) then b.name else existing.name,
      timezone := if BlankField(existing.timezone) then b.timezone else existing.timezone,
      notes := if existing.notes.Absent? && b.notes.Val? && b.notes.value != "" then b.notes else existing.notes)
  }

  function SeedOne(t: map<string, Job>, b: Job): Job {
    if KeyOf(b) in t then Lock(b, t[KeyOf(b)]) else b
  }

  function SeedBuiltins(t: map<string, Job>, bs: seq<Job>): seq<Job> {
    seq(|bs|, i requires 0 <= i < |bs| => SeedOne(t, bs[i]))
  }

  function Others(keys: seq<string>, t: map<string, Job>, bs: seq<Job>): seq<Job>
    requires forall k :: k in keys ==> k in t
  {
    if keys == [] then []
    else
      (if exists b :: b in bs && KeyOf(b) == keys[0] then [] else [t[keys[0]]]) + Others(keys[1..], t, bs)
  }

  /** Seeding: the built-in jobs first, then the others in the order of their
      keys; `changed` when a built-in was added or altered. */
  function Seed(jobs: seq<Job>, bs: seq<Job>): Seeded {
    var t := Table(jobs);
    Seeded(SeedBuiltins(t, bs) + Others(Keys(jobs), t, bs),
           exists b :: b in bs && (KeyOf(b) !in t || SeedOne(t, b) != t[KeyOf(b)]))
  }

  /** What the list of built-in jobs must be. */
  ghost predicate GoodBuiltins(bs: seq<Job>, allowed: set<string>) {
    && DistinctKeys(bs)
    && forall b :: b in bs ==>
         Complete(b, allowed) && b.id != Val("None") && b.builtin == Val(true) && b.deletable == Val(false)
         && b.notes.value != ""
  }

  // ----- lists with distinct keys -----

  ghost predicate DistinctKeys(jobs: seq<Job>) {
    forall i, j :: 0 <= i < j < |jobs| ==> KeyOf(jobs[i]) != KeyOf(jobs[j])
  }

  lemma {:induction false} KeysOfDistinct(jobs: seq<Job>)
    requires DistinctKeys(jobs)
    ensures |Keys(jobs)| == |jobs| && forall i :: 0 <= i < |jobs| ==> Keys(jobs)[i] == KeyOf(jobs[i])
    ensures forall i :: 0 <= i < |jobs| ==> KeyOf(jobs[i]) in Table(jobs) && Table(jobs)[KeyOf(jobs[i])] == jobs[i]
  {
    KeyList(jobs);
    forall i | 0 <= i < |jobs|
      ensures KeyOf(jobs[i]) in Table(jobs) && Table(jobs)[KeyOf(jobs[i])] == jobs[i]
    {
      TableAt(jobs, i);
    }
  }

  lemma {:induction false} KeyList(jobs: seq<Job>)
    requires DistinctKeys(jobs)
    ensures |Keys(jobs)| == |jobs| && forall i :: 0 <= i < |jobs| ==> Keys(jobs)[i] == KeyOf(jobs[i])
  {
    if jobs != [] {
      var n := |jobs| - 1;
      KeyList(jobs[..n]);
      assert forall i :: 0 <= i < n ==> KeyOf(jobs[..n][i]) != KeyOf(jobs[n]);
    }
  }

  lemma {:induction false} TableAt(jobs: seq<Job>, i: nat)
    requires DistinctKeys(jobs) && i < |jobs|
    ensures KeyOf(jobs[i]) in Table(jobs) && Table(jobs)[KeyOf(jobs[i])] == jobs[i]
  {
    var n := |jobs| - 1;
    if i < n {
      TableAt(jobs[..n], i);
      assert KeyOf(jobs[i]) != KeyOf(jobs[n]);
    }
  }

  lemma {:induction false} KeysAreDistinct(jobs: seq<Job>)
    ensures forall i, j :: 0 <= i < j < |Keys(jobs)| ==> Keys(jobs)[i] != Keys(jobs)[j]
    ensures forall j :: j in jobs ==> KeyOf(j) in Keys(jobs)
  {
    if jobs != [] {
      KeysAreDistinct(jobs[..|jobs| - 1]);
      assert forall j :: j in jobs <==> j in jobs[..|jobs| - 1] || j == jobs[|jobs| - 1];
    }
  }

  ghost predicate IsBuiltinKey(k: string, bs: seq<Job>) {
    exists b :: b in bs && KeyOf(b) == k
  }

  lemma {:induction false} OthersAt(keys: seq<string>, t: map<string, Job>, bs: seq<Job>)
    requires forall k :: k in keys ==> k in t && KeyOf(t[k]) == k
    requires forall i, j :: 0 <= i < j < |keys| ==> keys[i] != keys[j]
    ensures DistinctKeys(Others(keys, t, bs))
    ensures forall j :: j in Others(keys, t, bs) <==>
      KeyOf(j) in keys && t[KeyOf(j)] == j && !IsBuiltinKey(KeyOf(j), bs)
  {
    if keys != [] {
      OthersAt(keys[1..], t, bs);
      assert forall k :: k in keys <==> k == keys[0] || k in keys[1..];
      var rest := Others(keys[1..], t, bs);
      forall i | 0 <= i < |rest|
        ensures KeyOf(rest[i]) != keys[0]
      {
        assert rest[i] in rest;
      }
    }
  }

  lemma {:induction false} OthersOfTail(keys: seq<string>, t: map<string, Job>, bs: seq<Job>, jobs: seq<Job>)
    requires |keys| == |jobs| && forall i :: 0 <= i < |jobs| ==> keys[i] == KeyOf(jobs[i])
    requires forall i :: 0 <= i < |jobs| ==> keys[i] in t && t[keys[i]] == jobs[i] && !IsBuiltinKey(keys[i], bs)
    ensures forall k :: k in keys ==> k in t
    ensures Others(keys, t, bs) == jobs
  {
    if jobs != [] {
      OthersOfTail(keys[1..], t, bs, jobs[1..]);
      assert jobs == [jobs[0]] + jobs[1..];
    }
  }

  /** The shape every seeded list has. */
  ghost predicate SeededShape(jobs: seq<Job>, bs: seq<Job>) {
    && |jobs| >= |bs|
    && DistinctKeys(jobs)
    && (forall i :: 0 <= i < |bs| ==> KeyOf(jobs[i]) == KeyOf(bs[i]) && Lock(bs[i], jobs[i]) == jobs[i])
    && forall i :: |bs| <= i < |jobs| ==> !IsBuiltinKey(KeyOf(jobs[i]), bs)
  }

  lemma LockIsStable(b: Job, j: Job, allowed: set<string>)
    requires Complete(b, allowed)
    ensures Lock(b, Lock(b, j)) == Lock(b, j)
    ensures KeyOf(Lock(b, j)) == KeyOf(j)
    ensures Lock(b, b) == b
  {
  }

  lemma SeededParts(jobs: seq<Job>, bs: seq<Job>)
    ensures Seed(jobs, bs).jobs[..|bs|] == SeedBuiltins(Table(jobs), bs)
    ensures Seed(jobs, bs).jobs[|bs|..] == Others(Keys(jobs), Table(jobs), bs)
    ensures DistinctKeys(Seed(jobs, bs).jobs[|bs|..])
    ensures forall j :: j in Seed(jobs, bs).jobs[|bs|..] <==>
      KeyOf(j) in Table(jobs) && Table(jobs)[KeyOf(j)] == j && !IsBuiltinKey(KeyOf(j), bs)
  {
    KeysAreDistinct(jobs);
    OthersAt(Keys(jobs), Table(jobs), bs);
  }

  lemma SeededBuiltin(t: map<string, Job>, bs: seq<Job>, allowed: set<string>, i: nat)
    requires GoodBuiltins(bs, allowed) && i < |bs|
    requires forall k :: k in t ==> KeyOf(t[k]) == k
    ensures KeyOf(SeedBuiltins(t, bs)[i]) == KeyOf(bs[i])
    ensures Lock(bs[i], SeedBuiltins(t, bs)[i]) == SeedBuiltins(t, bs)[i]
  {
    assert bs[i] in bs;
    LockIsStable(bs[i], if KeyOf(bs[i]) in t then t[KeyOf(bs[i])] else bs[i], allowed);
  }

  lemma DistinctAppend(a: seq<Job>, b: seq<Job>)
    requires DistinctKeys(a) && DistinctKeys(b)
    requires forall i, j :: 0 <= i < |a| && 0 <= j < |b| ==> KeyOf(a[i]) != KeyOf(b[j])
    ensures DistinctKeys(a + b)
  {
  }

  /** Whatever the list was, seeding gives it the seeded shape. */
  lemma SeedShapes(jobs: seq<Job>, bs: seq<Job>, allowed: set<string>)
    requires GoodBuiltins(bs, allowed)
    ensures SeededShape(Seed(jobs, bs).jobs, bs)
  {
    var r := Seed(jobs, bs).jobs;
    SeededParts(jobs, bs);
    var front, others := SeedBuiltins(Table(jobs), bs), r[|bs|..];
    assert r == front + others;
    forall i | 0 <= i < |bs|
      ensures KeyOf(front[i]) == KeyOf(bs[i]) && Lock(bs[i], front[i]) == front[i] && IsBuiltinKey(KeyOf(front[i]), bs)
    {
      SeededBuiltin(Table(jobs), bs, allowed, i);
      assert bs[i] in bs;
    }
    forall i | 0 <= i < |others|
      ensures !IsBuiltinKey(KeyOf(others[i]), bs)
    {
      assert others[i] in others;
    }
    ShapeOfParts(front, others, bs);
  }

  lemma ShapeOfParts(front: seq<Job>, others: seq<Job>, bs: seq<Job>)
    requires |front| == |bs| && DistinctKeys(front) && DistinctKeys(others)
    requires forall i :: 0 <= i < |bs| ==>
      KeyOf(front[i]) == KeyOf(bs[i]) && Lock(bs[i], front[i]) == front[i] && IsBuiltinKey(KeyOf(front[i]), bs)
    requires forall i :: 0 <= i < |others| ==> !IsBuiltinKey(KeyOf(others[i]), bs)
    ensures SeededShape(front + others, bs)
  {
    var r := front + others;
    DistinctAppend(front, others);
    forall i | |bs| <= i < |r|
      ensures !IsBuiltinKey(KeyOf(r[i]), bs)
    {
      assert r[i] == others[i - |bs|];
    }
    assert forall i :: 0 <= i < |bs| ==> r[i] == front[i];
  }

  lemma BuiltinInTable(jobs: seq<Job>, bs: seq<Job>, i: nat)
    requires SeededShape(jobs, bs) && i < |bs|
    ensures KeyOf(bs[i]) in Table(jobs) && SeedOne(Table(jobs), bs[i]) == jobs[i] == Table(jobs)[KeyOf(bs[i])]
  {
    KeysOfDistinct(jobs);
    assert KeyOf(jobs[i]) == KeyOf(bs[i]);
  }

  lemma SeedKeepsFront(jobs: seq<Job>, bs: seq<Job>)
    requires SeededShape(jobs, bs)
    ensures SeedBuiltins(Table(jobs), bs) == jobs[..|bs|]
  {
    forall i | 0 <= i < |bs|
      ensures SeedOne(Table(jobs), bs[i]) == jobs[i]
    {
      BuiltinInTable(jobs, bs, i);
    }
  }

  lemma SeedReportsNothing(jobs: seq<Job>, bs: seq<Job>)
    requires SeededShape(jobs, bs)
    ensures !Seed(jobs, bs).changed
  {
    forall b | b in bs
      ensures KeyOf(b) in Table(jobs) && SeedOne(Table(jobs), b) == Table(jobs)[KeyOf(b)]
    {
      var i :| 0 <= i < |bs| && bs[i] == b;
      BuiltinInTable(jobs, bs, i);
    }
  }

  /** On a list of that shape seeding does nothing and says so. */
  lemma SeedKeepsSeeded(jobs: seq<Job>, bs: seq<Job>)
    requires SeededShape(jobs, bs)
    ensures Seed(jobs, bs) == Seeded(jobs, false)
  {
    SeedKeepsFront(jobs, bs);
    SeedKeepsOthers(jobs, bs);
    SeedReportsNothing(jobs, bs);
    assert jobs == jobs[..|bs|] + jobs[|bs|..];
  }

  lemma SeedKeepsOthers(jobs: seq<Job>, bs: seq<Job>)
    requires SeededShape(jobs, bs)
    ensures Others(Keys(jobs), Table(jobs), bs) == jobs[|bs|..]
  {
    var t, keys, n := Table(jobs), Keys(jobs), |bs|;
    KeysOfDistinct(jobs);
    forall i | 0 <= i < n
      ensures IsBuiltinKey(keys[i], bs)
    {
      assert bs[i] in bs && KeyOf(bs[i]) == keys[i];
    }
    OthersSkipBuiltins(keys, t, bs, n);
    OthersOfTail(keys[n..], t, bs, jobs[n..]);
  }

  lemma {:induction false} OthersSkipBuiltins(keys: seq<string>, t: map<string, Job>, bs: seq<Job>, n: nat)
    requires n <= |keys| && forall k :: k in keys ==> k in t
    requires forall i :: 0 <= i < n ==> IsBuiltinKey(keys[i], bs)
    ensures Others(keys, t, bs) == Others(keys[n..], t, bs)
  {
    if n > 0 {
      OthersSkipBuiltins(keys[1..], t, bs, n - 1);
      assert keys[1..][n - 1..] == keys[n..];
    } else {
      assert keys[0..] == keys;
    }
  }

  /** Seeding is idempotent: for any list, a second pass changes nothing and
      reports no change. */
  lemma SeedIsIdempotent(jobs: seq<Job>, bs: seq<Job>, allowed: set<string>)
    requires GoodBuiltins(bs, allowed)
    ensures Seed(Seed(jobs, bs).jobs, bs) == Seeded(Seed(jobs, bs).jobs, false)
  {
    SeedShapes(jobs, bs, allowed);
    SeedKeepsSeeded(Seed(jobs, bs).jobs, bs);
  }
}
