/** `PlanBuilder` of `acp/plan.go`: a slice of entries that is appended to, copied out and reset. */
module Plans {
  import opened Wrappers
  import Slices

  datatype Priority = High | Medium | Low
  datatype Status = Pending | InProgress | Completed
  datatype PlanEntry = PlanEntry(content: string, priority: Priority, status: Status)

  /** `api.Plan`: its entries are updated in place. */
  class Plan {
    const entries: array<PlanEntry>

    constructor (entries: array<PlanEntry>)
      ensures this.entries == entries
    {
      this.entries := entries;
    }
  }

  function PendingEntries(contents: seq<string>, priority: Priority): seq<PlanEntry> {
    seq(|contents|, i requires 0 <= i < |contents| => PlanEntry(contents[i], priority, Pending))
  }

  class PlanBuilder {
    const entries: Slices.SyncSlice<PlanEntry>

    ghost predicate Valid()
      reads this, entries
    {
      entries.Valid()
    }

    ghost function Entries(): seq<PlanEntry>
      requires Valid()
      reads this, entries, entries.data
    {
      entries.Elements()
    }

    constructor ()
      ensures Valid() && fresh(entries) && fresh(entries.data) && Entries() == []
    {
      entries := new Slices.SyncSlice<PlanEntry>();
    }

    method AddEntry(content: string, priority: Priority)
      requires Valid()
      modifies entries, entries.data
      ensures Valid() && (entries.data == old(entries.data) || fresh(entries.data))
      ensures Entries() == old(Entries()) + [PlanEntry(content, priority, Pending)]
    {
      entries.Append(PlanEntry(content, priority, Pending));
    }

    method AddEntries(contents: seq<string>, priority: Priority)
      requires Valid()
      modifies entries, entries.data
      ensures Valid() && (entries.data == old(entries.data) || fresh(entries.data))
      ensures Entries() == old(Entries()) + PendingEntries(contents, priority)
    {
      for i := 0 to |contents|
        invariant Valid() && (entries.data == old(entries.data) || fresh(entries.data))
        invariant Entries() == old(Entries()) + PendingEntries(contents[..i], priority)
      {
        AddEntry(contents[i], priority);
        assert PendingEntries(contents[..i + 1], priority)
            == PendingEntries(contents[..i], priority) + [PlanEntry(contents[i], priority, Pending)];
      }
      assert contents[..|contents|] == contents;
    }

    /** A plan with its own copy of the entries. */
    method Build() returns (plan: Plan)
      requires Valid()
      ensures fresh(plan) && fresh(plan.entries) && plan.entries[..] == Entries()
    {
      var copied := new PlanEntry[entries.len];
      forall i | 0 <= i < entries.len {
        copied[i] := entries.data[i];
      }
      plan := new Plan(copied);
    }

    method Reset()
      requires Valid()
      modifies entries`len
      ensures Valid() && Entries() == []
    {
      entries.Clear();
    }
  }

  function Updated(entries: seq<PlanEntry>, index: int, status: Status): seq<PlanEntry> {
    if 0 <= index < |entries| then entries[index := entries[index].(status := status)] else entries
  }

  /** Sets one entry's status in place; an index out of range is an error and changes nothing. */
  method UpdatePlanEntry(plan: Plan, index: int, status: Status) returns (r: Result<(), string>)
    modifies plan.entries
    ensures r.Ok? <==> 0 <= index < plan.entries.Length
    ensures plan.entries[..] == Updated(old(plan.entries[..]), index, status)
  {
    if index < 0 || index >= plan.entries.Length {
      return Err("index out of range");
    }
    plan.entries[index] := plan.entries[index].(status := status);
    r := Ok(());
  }

  method CreatePrioritizedPlan(high: seq<string>, medium: seq<string>, low: seq<string>) returns (plan: Plan)
    ensures fresh(plan) && fresh(plan.entries)
    ensures plan.entries[..] == PendingEntries(high, High) + PendingEntries(medium, Medium) + PendingEntries(low, Low)
  {
    var builder := new PlanBuilder();
    builder.AddEntries(high, High);
    builder.AddEntries(medium, Medium);
    builder.AddEntries(low, Low);
    plan := builder.Build();
  }

  // ---- Built plans over whole runs ----

  /** `Update` names a plan by the number of plans built before it. */
  datatype Operation =
    | AddEntries(contents: seq<string>, priority: Priority)
    | Reset
    | Build
    | Update(plan: nat, index: int, status: Status)

  /** The builder's entries and those of every plan built so far, as plain values. */
  datatype Contents = Contents(entries: seq<PlanEntry>, plans: seq<seq<PlanEntry>>)

  /** Each operation touches the builder alone or one plan alone. */
  function Apply(c: Contents, op: Operation): Contents {
    match op
    case AddEntries(contents, priority) => c.(entries := c.entries + PendingEntries(contents, priority))
    case Reset => c.(entries := [])
    case Build => c.(plans := c.plans + [c.entries])
    case Update(plan, index, status) =>
      if plan < |c.plans| then c.(plans := c.plans[plan := Updated(c.plans[plan], index, status)]) else c
  }

  function Replay(c: Contents, ops: seq<Operation>): Contents
    decreases |ops|
  {
    if ops == [] then c else Replay(Apply(c, ops[0]), ops[1..])
  }

  /** The entries of plan `k` after the updates of it among `ops`. */
  function UpdatedBy(entries: seq<PlanEntry>, k: nat, ops: seq<Operation>): seq<PlanEntry>
    decreases |ops|
  {
    if ops == [] then entries
    else
      var now := if ops[0].Update? && ops[0].plan == k then Updated(entries, ops[0].index, ops[0].status) else entries;
      UpdatedBy(now, k, ops[1..])
  }

  /** A built plan changes by the updates of that very plan and by nothing else; and the builder's
      entries do not depend on the plans. */
  lemma {:induction false} PlansAreIndependent(c: Contents, d: Contents, ops: seq<Operation>, k: nat)
    requires k < |c.plans| && c.entries == d.entries
    ensures k < |Replay(c, ops).plans| && Replay(c, ops).plans[k] == UpdatedBy(c.plans[k], k, ops)
    ensures Replay(c, ops).entries == Replay(d, ops).entries
    decreases |ops|
  {
    if ops != [] {
      PlansAreIndependent(Apply(c, ops[0]), Apply(d, ops[0]), ops[1..], k);
    }
  }

  /** No two plans share their entries, and none shares them with the builder. */
  ghost predicate Separate(builder: PlanBuilder, plans: seq<Plan>)
    reads builder.entries
  {
    && (forall i, j :: 0 <= i < j < |plans| ==> plans[i].entries != plans[j].entries)
    && (forall i :: 0 <= i < |plans| ==> plans[i].entries != builder.entries.data)
  }

  /** What the builder and the plans hold. */
  ghost function View(builder: PlanBuilder, plans: seq<Plan>): Contents
    requires builder.Valid()
    reads builder, builder.entries, builder.entries.data, set plan <- plans :: plan.entries
  {
    Contents(builder.Entries(), seq(|plans|, i requires 0 <= i < |plans|
                                      reads set plan <- plans :: plan.entries => plans[i].entries[..]))
  }

  method Perform(builder: PlanBuilder, plans: seq<Plan>, op: Operation) returns (all: seq<Plan>)
    requires builder.Valid() && Separate(builder, plans)
    modifies builder.entries, builder.entries.data, set plan <- plans :: plan.entries
    ensures builder.Valid() && (builder.entries.data == old(builder.entries.data) || fresh(builder.entries.data))
    ensures plans <= all && forall i :: |plans| <= i < |all| ==> fresh(all[i].entries)
    ensures Separate(builder, all) && View(builder, all) == Apply(old(View(builder, plans)), op)
  {
    all := plans;
    match op
    case AddEntries(contents, priority) => builder.AddEntries(contents, priority);
    case Reset => builder.Reset();
    case Build =>
      var plan := builder.Build();
      all := plans + [plan];
    case Update(plan, index, status) =>
      if plan < |plans| {
        var _ := UpdatePlanEntry(plans[plan], index, status);
      }
  }

  /** Any run of adding, resetting, building, and updating any plan built so far, however long ago:
      each plan holds what it would if it shared nothing with the builder or with another plan. */
  method Run(builder: PlanBuilder, plans: seq<Plan>, ops: seq<Operation>) returns (all: seq<Plan>)
    requires builder.Valid() && Separate(builder, plans)
    modifies builder.entries, builder.entries.data, set plan <- plans :: plan.entries
    ensures builder.Valid() && (builder.entries.data == old(builder.entries.data) || fresh(builder.entries.data))
    ensures plans <= all && Separate(builder, all)
    ensures View(builder, all) == Replay(old(View(builder, plans)), ops)
    decreases |ops|
  {
    if ops == [] {
      return plans;
    }
    all := Perform(builder, plans, ops[0]);
    all := Run(builder, all, ops[1..]);
  }
}
