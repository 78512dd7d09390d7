/** The configuration store's cron jobs: load, upsert, delete and read back. */
module CronStore {
  import opened Common
  import opened Text
  import opened CronJobs

  /** The stored document: none yet, or the stored list of jobs. */
  type Document = Option<seq<Job>>

  /** The list a load returns. */
  function Loaded(doc: Document, bs: seq<Job>): seq<Job> {
    Seed(if doc.Some? then doc.value else [], bs).jobs
  }

  /** The document after a load: written when it was missing or had to change. */
  function AfterLoad(doc: Document, bs: seq<Job>): Document {
    if doc.None? then Some(Seed([], bs).jobs)
    else if Seed(doc.value, bs).changed then Some(Seed(doc.value, bs).jobs)
    else doc
  }

  /** The first job with this id. */
  function Find(jobs: seq<Job>, id: string): Option<Job> {
    if jobs == [] then None
    else if jobs[0].id == Val(id) then Some(jobs[0])
    else Find(jobs[1..], id)
  }

  lemma FindStep(jobs: seq<Job>, id: string, i: nat)
    requires i < |jobs|
    ensures Find(jobs[i..], id) == if jobs[i].id == Val(id) then Some(jobs[i]) else Find(jobs[i + 1..], id)
  {
    assert jobs[i..][0] == jobs[i] && jobs[i..][1..] == jobs[i + 1..];
  }

  function Without(jobs: seq<Job>, id: string): seq<Job> {
    if jobs == [] then []
    else
      Without(jobs[..|jobs| - 1], id)
      + (if jobs[|jobs| - 1].id == Val(id) then [] else [jobs[|jobs| - 1]])
  }

  /** A built-in job with the user's edits to its editable fields. */
  function EditBuiltin(e: Job, inc: Job, jobId: string): Job {
    e.(
      name := if inc.name.Absent? then e.name
              else Val(OrElse(Strip(TextOr(inc.name, TextOr(e.name, jobId))), jobId)),
      schedule := if inc.schedule.Absent? then e.schedule else Val(Strip(TextOr(inc.schedule, ""))),
      timezone := if inc.timezone.Absent? then e.timezone
                  else Val(OrElse(Strip(TextOr(inc.timezone, "UTC")), "UTC")),
      enabled := if inc.enabled.Absent? then e.enabled else Val(Truth(inc.enabled, false)),
      notes := if inc.notes.Absent? then e.notes else Val(Strip(TextOr(inc.notes, ""))),
      metadata := if inc.metadata.Val? && inc.metadata.value.Dict? then inc.metadata else e.metadata)
  }

  function Default<T>(f: Field<T>, d: Field<T>): Field<T> {
    if f.Absent? then d else f
  }

  function OrNull<T>(f: Field<T>): Field<T> {
    if f.Val? then f else Null
  }

  /** A new custom job: fields the caller left out get their defaults. */
  function NewCustom(inc: Job): Job {
    inc.(builtin := Default(inc.builtin, Val(false)), deletable := Default(inc.deletable, Val(true)))
  }

  /** existing.get("metadata") or {}. */
  function MetadataOrEmpty(f: Field<Metadata>): Metadata {
    if f.Val? && !(f.value.NotDict? && f.value.falsy) then f.value else Dict(map[])
  }

  /** An existing custom job: fields the caller left out keep their content. */
  function MergeCustom(e: Job, inc: Job): Job {
    inc.(
      builtin := Default(inc.builtin, Val(Truth(e.builtin, false))),
      deletable := Default(inc.deletable, Val(Truth(e.deletable, true))),
      handler := Default(inc.handler, OrNull(e.handler)),
      schedule := Default(inc.schedule, OrNull(e.schedule)),
      name := Default(inc.name, OrNull(e.name)),
      timezone := Default(inc.timezone, OrNull(e.timezone)),
      enabled := Default(inc.enabled, Default(e.enabled, Val(true))),
      notes := Default(inc.notes, Val(TextOr(e.notes, ""))),
      metadata := Default(inc.metadata, Val(MetadataOrEmpty(e.metadata))))
  }

  /** The record an upsert stores, or why it raises.  `generated` is the id a
      caller that gives none would get. */
  function UpsertRecord(jobs: seq<Job>, inc: Job, generated: string, allowed: set<string>): Result<Job> {
    var jobId := Strip(TextOr(inc.id, ""));
    var existing := Find(jobs, jobId);
    if existing.Some? && Truth(existing.value.builtin, false) then
      var n := Normalize(EditBuiltin(existing.value, inc, jobId), allowed);
      if n.Failed? then n
      else
        Ok(n.value.(builtin := Val(true), deletable := Val(false),
                    handler := Val(TextOr(existing.value.handler, n.value.handler.value))))
    else
      var named := if existing.None? && jobId == "" then inc.(id := Val(generated)) else inc;
      var n := Normalize(if existing.None? then NewCustom(named) else MergeCustom(existing.value, named), allowed);
      if n.Ok? && n.value.builtin == Val(true) then Failed(BuiltinViaApi) else n
  }

  function Stored(jobs: seq<Job>, r: Job, bs: seq<Job>): seq<Job>
    requires r.id.Val?
  {
    Seed(Without(jobs, r.id.value) + [r], bs).jobs
  }

  function DeleteCheck(jobs: seq<Job>, id: string): Result<()> {
    var target := Find(jobs, id);
    if target.None? then Failed(JobNotFound)
    else if Truth(target.value.builtin, false) || target.value.deletable == Val(false) then Failed(NotDeletable)
    else Ok(())
  }

  // ----- runs -----

  datatype Op = LoadOp | UpsertOp(job: Job, generated: string) | DeleteOp(id: string)

  function Apply(doc: Document, op: Op, bs: seq<Job>, allowed: set<string>): Document {
    var jobs := Loaded(doc, bs);
    match op
    case LoadOp => AfterLoad(doc, bs)
    case UpsertOp(inc, generated) =>
      var r := UpsertRecord(jobs, inc, generated, allowed);
      if r.Failed? || !r.value.id.Val? then AfterLoad(doc, bs) else Some(Stored(jobs, r.value, bs))
    case DeleteOp(id) =>
      if DeleteCheck(jobs, id).Failed? then AfterLoad(doc, bs) else Some(Seed(Without(jobs, id), bs).jobs)
  }

  function RunOps(ops: seq<Op>, bs: seq<Job>, allowed: set<string>): Document {
    if ops == [] then None
    else Apply(RunOps(ops[..|ops| - 1], bs, allowed), ops[|ops| - 1], bs, allowed)
  }

  // ----- the seeding loop, step by step -----

  /** The table once one built-in job has been merged into it. */
  function TakeBuiltin(t: map<string, Job>, b: Job): map<string, Job> {
    t[KeyOf(b) := SeedOne(t, b)]
  }

  /** Some field of a stored built-in job gets replaced. */
  predicate Touches(b: Job, e: Job) {
    || e.handler != b.handler || e.builtin != b.builtin || e.deletable != b.deletable || e.enabled.Absent?
    || BlankField(e.schedule) || BlankField(e.name) || BlankField(e.timezone)
    || (e.notes.Absent? && TextOr(b.notes, "") != "")
  }

  predicate Alters(t: map<string, Job>, b: Job) {
    KeyOf(b) !in t || Touches(b, t[KeyOf(b)])
  }

  /** For a complete built-in job, replacing a field and ending with another
      record are the same thing. */
  lemma TouchedIsChanged(b: Job, e: Job, allowed: set<string>)
    requires Complete(b, allowed)
    ensures Touches(b, e) <==> Lock(b, e) != e
  {
  }

  /** The table after the first i built-in jobs. */
  function TableAfter(t: map<string, Job>, bs: seq<Job>, i: nat): map<string, Job>
    requires i <= |bs|
  {
    if i == 0 then t else TakeBuiltin(TableAfter(t, bs, i - 1), bs[i - 1])
  }

  predicate ChangedAfter(t: map<string, Job>, bs: seq<Job>, i: nat)
    requires i <= |bs|
  {
    i > 0 && (ChangedAfter(t, bs, i - 1) || Alters(TableAfter(t, bs, i - 1), bs[i - 1]))
  }

  lemma {:induction false} TableAfterElse(t: map<string, Job>, bs: seq<Job>, i: nat, k: string)
    requires i <= |bs| && forall x :: 0 <= x < i ==> KeyOf(bs[x]) != k
    ensures (k in TableAfter(t, bs, i) <==> k in t) && (k in t ==> TableAfter(t, bs, i)[k] == t[k])
  {
    if i > 0 {
      TableAfterElse(t, bs, i - 1, k);
    }
  }

  /** The built-in jobs do not get in each other's way. */
  lemma {:induction false} TableAfterBuiltin(t: map<string, Job>, bs: seq<Job>, i: nat, x: nat)
    requires DistinctKeys(bs) && x < i <= |bs|
    ensures KeyOf(bs[x]) in TableAfter(t, bs, i) && TableAfter(t, bs, i)[KeyOf(bs[x])] == SeedOne(t, bs[x])
  {
    if x == i - 1 {
      TableAfterElse(t, bs, i - 1, KeyOf(bs[x]));
    } else {
      TableAfterBuiltin(t, bs, i - 1, x);
      assert KeyOf(bs[x]) != KeyOf(bs[i - 1]);
    }
  }

  lemma {:induction false} ChangedAfterAt(t: map<string, Job>, bs: seq<Job>, i: nat, allowed: set<string>)
    requires GoodBuiltins(bs, allowed) && i <= |bs|
    ensures ChangedAfter(t, bs, i) <==>
      exists x :: 0 <= x < i && (KeyOf(bs[x]) !in t || SeedOne(t, bs[x]) != t[KeyOf(bs[x])])
  {
    if i > 0 {
      ChangedAfterAt(t, bs, i - 1, allowed);
      TableAfterElse(t, bs, i - 1, KeyOf(bs[i - 1]));
      assert bs[i - 1] in bs;
      if KeyOf(bs[i - 1]) in t {
        TouchedIsChanged(bs[i - 1], t[KeyOf(bs[i - 1])], allowed);
      }
    }
  }

  lemma TableAfterAt(t: map<string, Job>, bs: seq<Job>, allowed: set<string>)
    requires GoodBuiltins(bs, allowed)
    ensures forall x :: 0 <= x < |bs| ==>
      KeyOf(bs[x]) in TableAfter(t, bs, |bs|) && TableAfter(t, bs, |bs|)[KeyOf(bs[x])] == SeedOne(t, bs[x])
    ensures forall k :: k in t && !IsBuiltinKey(k, bs) ==>
      k in TableAfter(t, bs, |bs|) && TableAfter(t, bs, |bs|)[k] == t[k]
    ensures ChangedAfter(t, bs, |bs|) <==> exists b :: b in bs && (KeyOf(b) !in t || SeedOne(t, b) != t[KeyOf(b)])
  {
    forall x | 0 <= x < |bs|
      ensures KeyOf(bs[x]) in TableAfter(t, bs, |bs|) && TableAfter(t, bs, |bs|)[KeyOf(bs[x])] == SeedOne(t, bs[x])
    {
      TableAfterBuiltin(t, bs, |bs|, x);
    }
    forall k | k in t && !IsBuiltinKey(k, bs)
      ensures k in TableAfter(t, bs, |bs|) && TableAfter(t, bs, |bs|)[k] == t[k]
    {
      forall x | 0 <= x < |bs|
        ensures KeyOf(bs[x]) != k
      {
        assert bs[x] in bs;
      }
      TableAfterElse(t, bs, |bs|, k);
    }
    ChangedAfterAt(t, bs, |bs|, allowed);
    forall x | 0 <= x < |bs|
      ensures bs[x] in bs
    {
    }
  }

  lemma OthersStep(keys: seq<string>, t: map<string, Job>, bs: seq<Job>)
    requires keys != [] && forall k :: k in keys ==> k in t
    ensures forall k :: k in keys[1..] ==> k in t
    ensures Others(keys, t, bs)
      == if IsBuiltinKey(keys[0], bs) then Others(keys[1..], t, bs) else [t[keys[0]]] + Others(keys[1..], t, bs)
  {
  }

  // ----- the store -----

  class AdminConfigStore {
    const bs: seq<Job>
    const allowed: set<string>
    var doc: Document

    constructor (builtins: seq<Job>, handlers: set<string>)
      ensures bs == builtins && allowed == handlers && doc == None
    {
      bs := builtins;
      allowed := handlers;
      doc := None;
    }

    /** The seeding loop: a table keyed by job id takes the built-in jobs one
        after the other; then the list is put in its final order. */
    method SeedBuiltinCronJobs(jobs: seq<Job>) returns (seeded: seq<Job>, changed: bool)
      requires GoodBuiltins(bs, allowed)
      ensures Seeded(seeded, changed) == Seed(jobs, bs)
    {
      var byId, touched := MergeBuiltins(Table(jobs));
      TableAfterAt(Table(jobs), bs, allowed);
      seeded := InOrder(Keys(jobs), byId, Table(jobs));
      changed := touched;
    }

    method MergeBuiltins(t: map<string, Job>) returns (byId: map<string, Job>, changed: bool)
      ensures byId == TableAfter(t, bs, |bs|) && changed == ChangedAfter(t, bs, |bs|)
    {
      byId := t;
      changed := false;
      for i := 0 to |bs|
        invariant byId == TableAfter(t, bs, i) && changed == ChangedAfter(t, bs, i)
      {
        var touched;
        byId, touched := MergeOne(byId, bs[i]);
        changed := changed || touched;
      }
    }

    method MergeOne(t: map<string, Job>, b: Job) returns (byId: map<string, Job>, touched: bool)
      ensures byId == TakeBuiltin(t, b) && touched == Alters(t, b)
    {
      if KeyOf(b) !in t {
        return t[KeyOf(b) := b], true;
      }
      var merged;
      merged, touched := LockLoop(b, t[KeyOf(b)]);
      byId := t[KeyOf(b) := merged];
    }

    /** The final order: the built-in jobs, then every other entry of the table
        in insertion order. */
    method InOrder(keys: seq<string>, byId: map<string, Job>, ghost t: map<string, Job>) returns (ordered: seq<Job>)
      requires forall i :: 0 <= i < |bs| ==> KeyOf(bs[i]) in byId && byId[KeyOf(bs[i])] == SeedOne(t, bs[i])
      requires forall k :: k in keys ==> k in t
      requires forall k :: k in t && !IsBuiltinKey(k, bs) ==> k in byId && byId[k] == t[k]
      ensures ordered == SeedBuiltins(t, bs) + Others(keys, t, bs)
    {
      ordered := [];
      var seen: set<string> := {};
      for i := 0 to |bs|
        invariant ordered == SeedBuiltins(t, bs)[..i]
        invariant seen == set x | 0 <= x < i :: KeyOf(bs[x])
      {
        ordered := ordered + [byId[KeyOf(bs[i])]];
        seen := seen + {KeyOf(bs[i])};
      }
      assert SeedBuiltins(t, bs)[..|bs|] == SeedBuiltins(t, bs);
      forall k
        ensures k in seen <==> IsBuiltinKey(k, bs)
      {
      }
      var rest := AppendOthers(keys, byId, seen, t);
      ordered := ordered + rest;
    }

    method AppendOthers(keys: seq<string>, byId: map<string, Job>, seen: set<string>, ghost t: map<string, Job>)
      returns (rest: seq<Job>)
      requires forall k :: k in seen <==> IsBuiltinKey(k, bs)
      requires forall k :: k in keys ==> k in t
      requires forall k :: k in t && !IsBuiltinKey(k, bs) ==> k in byId && byId[k] == t[k]
      ensures rest == Others(keys, t, bs)
    {
      rest := [];
      ghost var todo := keys;
      for i := 0 to |keys|
        invariant todo == keys[i..] && forall k :: k in todo ==> k in t
        invariant Others(keys, t, bs) == rest + Others(todo, t, bs)
      {
        OthersStep(todo, t, bs);
        if keys[i] !in seen {
          Regroup(rest, [byId[keys[i]]], Others(todo[1..], t, bs));
          rest := rest + [byId[keys[i]]];
        }
        todo := todo[1..];
      }
    }

    /** The merge of one built-in job: fields are replaced one by one, and any
        replacement is reported. */
    method LockLoop(b: Job, existing: Job) returns (merged: Job, touched: bool)
      ensures merged == Lock(b, existing) && touched == Touches(b, existing)
    {
      merged := existing;
      touched := false;
      if merged.handler != b.handler {
        merged := merged.(handler := b.handler);
        touched := true;
      }
      if merged.builtin != b.builtin {
        merged := merged.(builtin := b.builtin);
        touched := true;
      }
      if merged.deletable != b.deletable {
        merged := merged.(deletable := b.deletable);
        touched := true;
      }
      if merged.enabled.Absent? {
        merged := merged.(enabled := b.enabled);
        touched := true;
      }
      if Strip(TextOr(merged.schedule, "")) == "" {
        merged := merged.(schedule := b.schedule);
        touched := true;
      }
      if Strip(TextOr(merged.name, "")) == "" {
        merged := merged.(name := b.name);
        touched := true;
      }
      if Strip(TextOr(merged.timezone, "")) == "" {
        merged := merged.(timezone := b.timezone);
        touched := true;
      }
      if existing.notes.Absent? && TextOr(b.notes, "") != "" {
        merged := merged.(notes := b.notes);
        touched := true;
      }
    }

    method Load() returns (jobs: seq<Job>)
      requires GoodBuiltins(bs, allowed)
      modifies this
      ensures jobs == Loaded(old(doc), bs) && doc == AfterLoad(old(doc), bs)
    {
      if doc.None? {
        var seeded, _ := SeedBuiltinCronJobs([]);
        doc := Some(seeded);
        return seeded;
      }
      var seeded, changed := SeedBuiltinCronJobs(doc.value);
      if changed {
        doc := Some(seeded);
      }
      jobs := seeded;
    }

    method GetCronJob(id: string) returns (job: Option<Job>)
      requires GoodBuiltins(bs, allowed)
      modifies this
      ensures job == Find(Loaded(old(doc), bs), id) && doc == AfterLoad(old(doc), bs)
    {
      var jobs := Load();
      for i := 0 to |jobs|
        invariant Find(jobs, id) == Find(jobs[i..], id) && doc == AfterLoad(old(doc), bs)
      {
        FindStep(jobs, id, i);
        if jobs[i].id == Val(id) {
          return Some(jobs[i]);
        }
      }
      job := None;
    }

    method UpsertCronJob(inc: Job, generated: string) returns (r: Result<Job>)
      requires GoodBuiltins(bs, allowed)
      modifies this
      ensures r == UpsertRecord(Loaded(old(doc), bs), inc, generated, allowed)
      ensures doc == Apply(old(doc), UpsertOp(inc, generated), bs, allowed)
    {
      var jobs := Load();
      r := UpsertRecord(jobs, inc, generated, allowed);
      if r.Failed? || !r.value.id.Val? {
        return;
      }
      var seeded, _ := SeedBuiltinCronJobs(Without(jobs, r.value.id.value) + [r.value]);
      doc := Some(seeded);
    }

    method DeleteCronJob(id: string) returns (r: Result<()>)
      requires GoodBuiltins(bs, allowed)
      modifies this
      ensures r == DeleteCheck(Loaded(old(doc), bs), id)
      ensures doc == Apply(old(doc), DeleteOp(id), bs, allowed)
    {
      var jobs := Load();
      r := DeleteCheck(jobs, id);
      if r.Ok? {
        var seeded, _ := SeedBuiltinCronJobs(Without(jobs, id));
        doc := Some(seeded);
      }
    }
  }
}
