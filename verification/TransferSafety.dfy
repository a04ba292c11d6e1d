/** What transfers keep under faults, and batches as simultaneous updates. */
module TransferSafety {
  import opened Options
  import opened Transfers

  // ------------------------------------------------------------------ one transfer

  /** The content of the source is still at the source or at the destination. */
  predicate Survives(fs: Fs, m: Fs, item: Item) {
    Bytes(m, item.source) == Bytes(fs, item.source) || Bytes(m, item.destination) == Bytes(fs, item.source)
  }

  /** Nothing but the source is removed or changed, nothing but the destination appears. */
  predicate OthersKept(fs: Fs, m: Fs, item: Item) {
    && (forall p :: p in fs && p != item.source ==> p in m && m[p] == fs[p])
    && (forall p :: p in m && p != item.destination ==> p in fs && m[p] == fs[p])
  }

  /** Whatever fails and wherever the process dies, everything that was there stays, a
      file already at the destination included; only the source may go. */
  lemma EveryMomentKeepsOthers(hash: Content -> Digest, fs: Fs, plan: Plan, io: Io)
    ensures var o := Execute(hash, fs, plan, io);
      OthersKept(fs, o.fs, plan.item) && forall m :: m in o.moments ==> OthersKept(fs, m, plan.item)
  {
    if Opens(fs, plan.item) { PartKeepsOthers(fs, plan.item, io.partial); }
    if Places(fs, plan.item, io) {
      var placed := Placed(fs, plan.item, io);
      PlacingKeepsOthers(fs, plan.item, io);
      FinishKeepsOthers(hash, fs, placed, plan, io);
    }
  }

  lemma PartKeepsOthers(fs: Fs, item: Item, partial: Content)
    requires Opens(fs, item)
    ensures OthersKept(fs, fs[item.destination := File(partial)], item)
  {}

  lemma PlacingKeepsOthers(fs: Fs, item: Item, io: Io)
    requires Places(fs, item, io)
    ensures OthersKept(fs, Placed(fs, item, io), item) && OthersKept(fs, fs[item.destination := File(io.partial)], item)
    ensures OthersKept(fs, Placed(fs, item, io) - {item.source}, item)
  {}

  lemma FinishKeepsOthers(hash: Content -> Digest, fs: Fs, placed: Fs, plan: Plan, io: Io)
    requires OthersKept(fs, placed, plan.item) && plan.item.destination !in fs
    ensures OthersKept(fs, Finish(hash, placed, plan, io).0, plan.item)
  {}

  /** A copy never changes its source. */
  lemma CopyKeepsSource(hash: Content -> Digest, fs: Fs, plan: Plan, io: Io)
    requires plan.item.operation.Copy? && plan.item.source in fs
    ensures forall m :: m in Execute(hash, fs, plan, io).moments ==>
      plan.item.source in m && m[plan.item.source] == fs[plan.item.source]
  {}

  /** The copy came out with other content than the source has. */
  predicate Garbled(fs: Fs, io: Io, item: Item) {
    !Links(item, io) && io.garbled.Some? && Some(io.garbled.value) != Bytes(fs, item.source)
  }

  /** The source is removed, and the destination does not keep its content: it holds other
      content that passed the checks, or the removal reported an error and the copy was
      cleaned up. */
  predicate Loses(hash: Content -> Digest, fs: Fs, plan: Plan, io: Io) {
    && Places(fs, plan.item, io) && plan.item.operation.Move?
    && Verified(hash, Placed(fs, plan.item, io), plan, io) && !io.unlinks.Refused?
    && (Garbled(fs, io, plan.item) || (io.unlinks.Unreported? && io.cleans))
  }

  /** The content is at the source or at the destination at every moment, exactly unless it
      is lost in one of these two ways. */
  lemma SourceSurvivesExactly(hash: Content -> Digest, fs: Fs, plan: Plan, io: Io)
    ensures (forall m :: m in Execute(hash, fs, plan, io).moments ==> Survives(fs, m, plan.item)) <==>
      !Loses(hash, fs, plan, io)
  {
    var o := Execute(hash, fs, plan, io);
    if Loses(hash, fs, plan, io) {
      var removed := Placed(fs, plan.item, io) - {plan.item.source};
      assert removed in o.moments;
      assert io.unlinks.Unreported? && io.cleans ==> o.fs in o.moments;
    }
  }

  /** Wrong content can get past a check: the digest is misread, or two contents share it. */
  predicate Fooled(hash: Content -> Digest, fs: Fs, io: Io, item: Item) {
    Garbled(fs, io, item) &&
    (io.verify.Misread? ||
     (Bytes(fs, item.source).Some? && hash(io.garbled.value) == hash(Bytes(fs, item.source).value)))
  }

  /** Otherwise the checks catch it, and nothing is removed. */
  lemma ChecksCatchGarbled(hash: Content -> Digest, fs: Fs, plan: Plan, io: Io)
    requires Preflight(hash, fs, plan.item) == Ok(plan) && Places(fs, plan.item, io)
    requires Garbled(fs, io, plan.item) && !Fooled(hash, fs, io, plan.item)
    ensures !Verified(hash, Placed(fs, plan.item, io), plan, io)
  {}

  /** The file system after one item: the copy is made, and a moved source is gone. */
  function Applied(fs: Fs, item: Item): Fs {
    if item.source !in fs then fs
    else
      var placed := fs[item.destination := fs[item.source]];
      if item.operation.Move? then placed - {item.source} else placed
  }

  /** The items, one after the other. */
  function OneByOne(fs: Fs, items: seq<Item>): Fs {
    if items == [] then fs else Applied(OneByOne(fs, items[..|items| - 1]), items[|items| - 1])
  }

  /** A transfer that throws leaves something behind: a stranded copy, a copy that is not
      cleaned up, or a missing source. */
  predicate LeavesTraces(hash: Content -> Digest, fs: Fs, plan: Plan, io: Io) {
    || Strands(fs, plan.item, io)
    || (Places(fs, plan.item, io)
        && (!io.cleans ||
            (plan.item.operation.Move? && io.unlinks.Unreported? &&
             Verified(hash, Placed(fs, plan.item, io), plan, io))))
  }

  /** A transfer is all or nothing, exactly unless the content is garbled, or a failure
      leaves traces. */
  lemma AllOrNothing(hash: Content -> Digest, fs: Fs, plan: Plan, io: Io)
    ensures var o := Execute(hash, fs, plan, io);
      && (o.done ==> (o.fs == Applied(fs, plan.item) <==> !Garbled(fs, io, plan.item)))
      && (!o.done ==> (o.fs == fs <==> !LeavesTraces(hash, fs, plan, io)))
  {
    var o := Execute(hash, fs, plan, io);
    if o.done {
      DoneIs(hash, fs, plan, io);
    } else if LeavesTraces(hash, fs, plan, io) {
      assert plan.item.destination in o.fs || plan.item.source !in o.fs;
    }
  }

  lemma DoneIs(hash: Content -> Digest, fs: Fs, plan: Plan, io: Io)
    requires Execute(hash, fs, plan, io).done
    ensures Execute(hash, fs, plan, io).fs == Applied(fs, plan.item) <==> !Garbled(fs, io, plan.item)
  {
    var o := Execute(hash, fs, plan, io);
    if Garbled(fs, io, plan.item) {
      assert o.fs[plan.item.destination] != Applied(fs, plan.item)[plan.item.destination];
    }
  }

  /** No failure of this kind leaves traces. */
  predicate Contained(io: Io) { io.cleans && !io.unlinks.Unreported? && !io.placing.FailsHalfway? }

  // ---------------------------------------------------------------------- batches

  /** The preflight passes. */
  predicate Ready(fs: Fs, item: Item) {
    Bytes(fs, item.source).Some? && item.destination !in fs && IsDirectory(fs, Parent(item.destination))
  }

  /** The items can be applied at once: nothing here depends on their order. */
  ghost predicate Compatible(fs: Fs, items: multiset<Item>) {
    && (forall a :: a in items ==> items[a] == 1 && Ready(fs, a))
    && (forall a, b :: a in items && b in items ==> a.destination != b.source)
    && (forall a, b :: a in items && b in items && a != b ==>
          a.destination != b.destination && (a.operation.Move? ==> a.source != b.source))
  }

  /** `g` is `fs` with all copies and moves applied at once, every content read from `fs`. */
  ghost predicate AllAtOnce(fs: Fs, items: seq<Item>, g: Fs) {
    && (forall a :: a in items ==> a.destination in g && a.source in fs && g[a.destination] == fs[a.source])
    && (forall p :: p in g ==> IsTarget(items, p) || (p in fs && g[p] == fs[p] && !IsMoved(items, p)))
    && (forall p :: p in fs && !IsMoved(items, p) ==> p in g)
  }

  ghost predicate IsTarget(items: seq<Item>, p: Path) {
    exists a :: a in items && a.destination == p
  }

  ghost predicate IsMoved(items: seq<Item>, p: Path) {
    exists a :: a in items && a.operation.Move? && a.source == p
  }

  /** A simultaneous update has one result, whatever the order of the items. */
  lemma AllAtOnceUnique(fs: Fs, a: seq<Item>, b: seq<Item>, g: Fs, h: Fs)
    requires multiset(a) == multiset(b) && AllAtOnce(fs, a, g) && AllAtOnce(fs, b, h)
    ensures g == h
  {
    SameMembers(a, b);
    forall p | p in g ensures p in h && h[p] == g[p] { OnePath(fs, a, b, g, h, p); }
    forall p | p in h ensures p in g { OnePath(fs, b, a, h, g, p); }
  }

  lemma SameMembers(a: seq<Item>, b: seq<Item>)
    requires multiset(a) == multiset(b)
    ensures forall x :: x in a <==> x in b
  {
    forall x | x in a ensures x in b { assert x in multiset(b); }
    forall x | x in b ensures x in a { assert x in multiset(a); }
  }

  lemma OnePath(fs: Fs, a: seq<Item>, b: seq<Item>, g: Fs, h: Fs, p: Path)
    requires (forall x :: x in a <==> x in b) && AllAtOnce(fs, a, g) && AllAtOnce(fs, b, h) && p in g
    ensures p in h && h[p] == g[p]
  {
    if IsTarget(a, p) {
      var x :| x in a && x.destination == p;
      assert x in b;
    } else {
      assert !IsTarget(b, p) && !IsMoved(b, p);
    }
  }

  // ----------------------------------------------------------- the checks of a batch

  ghost predicate Planned(hash: Content -> Digest, fs: Fs, items: seq<Item>, plans: seq<Plan>) {
    |plans| == |items| && forall i :: 0 <= i < |items| ==> Preflight(hash, fs, items[i]) == Ok(plans[i])
  }

  predicate DistinctTargets(items: seq<Item>) {
    forall i, j :: 0 <= i < j < |items| ==> items[i].destination != items[j].destination
  }

  predicate AllReady(fs: Fs, items: seq<Item>) {
    forall i :: 0 <= i < |items| ==> Ready(fs, items[i])
  }

  lemma PreflightIs(hash: Content -> Digest, fs: Fs, item: Item)
    ensures Preflight(hash, fs, item).Ok? <==> Ready(fs, item)
    ensures Preflight(hash, fs, item).Ok? ==> Preflight(hash, fs, item).value.item == item
  {}

  lemma PlannedItems(hash: Content -> Digest, fs: Fs, items: seq<Item>, plans: seq<Plan>)
    requires Planned(hash, fs, items, plans)
    ensures forall i :: 0 <= i < |items| ==> plans[i].item == items[i]
    ensures forall p :: p in Destinations(plans) <==> exists i :: 0 <= i < |items| && items[i].destination == p
  {
    forall i | 0 <= i < |items| ensures plans[i].item == items[i] { PreflightIs(hash, fs, items[i]); }
  }

  lemma {:induction false} PlansAre(hash: Content -> Digest, fs: Fs, items: seq<Item>)
    ensures Plans(hash, fs, items).Ok? <==> AllReady(fs, items) && DistinctTargets(items)
    ensures Plans(hash, fs, items).Ok? ==> Planned(hash, fs, items, Plans(hash, fs, items).value)
    decreases |items|
  {
    if items != [] {
      var front, last := items[..|items| - 1], items[|items| - 1];
      PlansAre(hash, fs, front);
      PreflightIs(hash, fs, last);
      ReadyLast(fs, items);
      if Plans(hash, fs, front).Ok? {
        var plans := Plans(hash, fs, front).value;
        PlannedItems(hash, fs, front, plans);
        if Plans(hash, fs, items).Ok? { PlannedLast(hash, fs, items, plans, Preflight(hash, fs, last).value); }
      }
    }
  }

  lemma ReadyLast(fs: Fs, items: seq<Item>)
    requires items != []
    ensures var front, last := items[..|items| - 1], items[|items| - 1];
      && (AllReady(fs, items) <==> AllReady(fs, front) && Ready(fs, last))
      && (DistinctTargets(items) <==>
            DistinctTargets(front) && forall i :: 0 <= i < |front| ==> front[i].destination != last.destination)
  {
    var front, last := items[..|items| - 1], items[|items| - 1];
    assert items == front + [last];
  }

  lemma PlannedLast(hash: Content -> Digest, fs: Fs, items: seq<Item>, plans: seq<Plan>, plan: Plan)
    requires items != [] && Planned(hash, fs, items[..|items| - 1], plans)
    requires Preflight(hash, fs, items[|items| - 1]) == Ok(plan)
    ensures Planned(hash, fs, items, plans + [plan])
  {
    var front := items[..|items| - 1];
    forall i | 0 <= i < |items| ensures Preflight(hash, fs, items[i]) == Ok((plans + [plan])[i]) {
      if i < |front| { assert front[i] == items[i]; }
    }
  }

  /** The checks before the first write accept exactly the compatible batches. */
  lemma ChecksAreExact(hash: Content -> Digest, fs: Fs, items: seq<Item>)
    ensures var plans := Plans(hash, fs, items);
      plans.Ok? && !Overlap(plans.value) && !Contended(plans.value) <==> Compatible(fs, multiset(items))
  {
    var plans := Plans(hash, fs, items);
    PlansAre(hash, fs, items);
    if plans.Ok? {
      PlannedItems(hash, fs, items, plans.value);
      SourcesAre(items, plans.value);
      CompatibleByIndex(fs, items);
    } else if Compatible(fs, multiset(items)) {
      CompatibleByIndex(fs, items);
    }
  }

  /** No destination is a source, no moved file is a source twice. */
  predicate Disjoint(items: seq<Item>) {
    && (forall i, j :: 0 <= i < |items| && 0 <= j < |items| ==> items[i].destination != items[j].source)
    && (forall i, j :: 0 <= i < |items| && 0 <= j < |items| && i != j && items[i].operation.Move? ==>
          items[j].source != items[i].source)
  }

  lemma SourcesAre(items: seq<Item>, plans: seq<Plan>)
    requires |plans| == |items| && forall i :: 0 <= i < |items| ==> plans[i].item == items[i]
    ensures !Overlap(plans) && !Contended(plans) <==> Disjoint(items)
  {
    if !Disjoint(items) {
      if i, j :| 0 <= i < |items| && 0 <= j < |items| && items[i].destination == items[j].source {
        assert plans[j].item.source in Sources(plans);
        assert plans[i].item.destination in Sources(plans);
      } else {
        var i, j :| 0 <= i < |items| && 0 <= j < |items| && i != j && items[i].operation.Move? &&
          items[j].source == items[i].source;
        assert plans[i].item.operation.Move? && plans[j].item.source == plans[i].item.source;
      }
    } else {
      forall i | 0 <= i < |plans| ensures plans[i].item.destination !in Sources(plans) {
        assert forall j :: 0 <= j < |plans| ==> items[i].destination != items[j].source;
      }
    }
  }

  lemma CompatibleByIndex(fs: Fs, items: seq<Item>)
    ensures Compatible(fs, multiset(items)) <==> AllReady(fs, items) && DistinctTargets(items) && Disjoint(items)
  {
    if Compatible(fs, multiset(items)) {
      forall i | 0 <= i < |items| ensures items[i] in multiset(items) {}
      forall i, j | 0 <= i < j < |items| ensures items[i] != items[j] { CountTwice(items, i, j); }
    } else if AllReady(fs, items) && DistinctTargets(items) && Disjoint(items) {
      forall a | a in multiset(items) ensures multiset(items)[a] == 1 {
        var i :| 0 <= i < |items| && items[i] == a;
        CountOnce(items, i);
      }
    }
  }

  lemma {:induction false} CountTwice(items: seq<Item>, i: nat, j: nat)
    requires i < j < |items| && multiset(items)[items[i]] == 1
    ensures items[i] != items[j]
  {
    assert items == items[..j] + [items[j]] + items[j + 1..];
    assert items[..j] == items[..i] + [items[i]] + items[i + 1..j];
  }

  lemma CountOnce(items: seq<Item>, i: nat)
    requires i < |items| && DistinctTargets(items)
    ensures multiset(items)[items[i]] == 1
  {
    assert items == items[..i] + [items[i]] + items[i + 1..];
    assert items[i] !in multiset(items[..i]) && items[i] !in multiset(items[i + 1..]);
  }

  // -------------------------------------------------------- the executing loop

  /** Nobody else touches the file system, and a garbled copy is not taken for the source. */
  ghost predicate Undisturbed(hash: Content -> Digest, io: Io) {
    && io.meanwhile.None?
    && (io.garbled.Some? ==>
          !io.verify.Misread? && forall c :: hash(c) == hash(io.garbled.value) ==> c == io.garbled.value)
  }

  /** Nothing fails; a link across devices is not a failure. */
  predicate QuietIo(io: Io) {
    && io.meanwhile.None? && io.placing.Goes? && io.garbled.None? && io.verify.Faithful? && io.measures
    && io.recheck.Faithful? && io.unlinks.Removed?
  }

  predicate Checked(fs: Fs, items: seq<Item>) {
    AllReady(fs, items) && DistinctTargets(items) && Disjoint(items)
  }

  /** The item can still be applied after those before it. */
  predicate Apart(fs: Fs, before: seq<Item>, item: Item) {
    && Ready(fs, item) && item.source != item.destination
    && forall a :: a in before ==>
         && a.destination != item.destination && a.destination != item.source && Bytes(fs, a.source).Some?
         && a.destination !in fs && (a.operation.Move? ==> a.source != item.source)
  }

  predicate Orderly(fs: Fs, items: seq<Item>) {
    items == [] || (Orderly(fs, items[..|items| - 1]) && Apart(fs, items[..|items| - 1], items[|items| - 1]))
  }

  lemma {:induction false} CheckedIsOrderly(fs: Fs, items: seq<Item>)
    requires Checked(fs, items)
    ensures Orderly(fs, items)
    decreases |items|
  {
    if items != [] {
      var k := |items| - 1;
      ReadyLast(fs, items);
      assert Checked(fs, items[..k]);
      CheckedIsOrderly(fs, items[..k]);
      CheckedIsApart(fs, items, k);
    }
  }

  lemma CheckedIsApart(fs: Fs, items: seq<Item>, k: nat)
    requires Checked(fs, items) && k < |items|
    ensures Apart(fs, items[..k], items[k])
  {
    assert Ready(fs, items[k]);
    forall a | a in items[..k]
      ensures a.destination != items[k].destination && a.destination != items[k].source && Ready(fs, a)
      ensures a.operation.Move? ==> a.source != items[k].source
    {
      var i :| 0 <= i < k && items[i] == a;
    }
  }

  lemma {:induction false} OrderlyPrefix(fs: Fs, items: seq<Item>, k: nat)
    requires Orderly(fs, items) && k <= |items|
    ensures Orderly(fs, items[..k]) && (k < |items| ==> Apart(fs, items[..k], items[k]))
  {
    if k < |items| {
      OrderlyPrefix(fs, items[..|items| - 1], k);
      assert items[..|items| - 1][..k] == items[..k];
    } else {
      assert items[..k] == items;
    }
  }

  /** After the items before it, an item finds its preflight unchanged. */
  lemma StillPlanned(hash: Content -> Digest, fs: Fs, before: seq<Item>, item: Item, g: Fs)
    requires Apart(fs, before, item) && AllAtOnce(fs, before, g)
    ensures Preflight(hash, g, item) == Preflight(hash, fs, item)
  {
    assert !IsTarget(before, item.source) && !IsMoved(before, item.source) && !IsTarget(before, item.destination);
    assert !IsMoved(before, Parent(item.destination)) && !IsTarget(before, Parent(item.destination));
  }

  lemma OneMore(before: seq<Item>, after: seq<Item>, item: Item)
    requires forall a :: a in after <==> a in before || a == item
    ensures forall p :: IsTarget(after, p) <==> IsTarget(before, p) || p == item.destination
    ensures forall p :: IsMoved(after, p) <==> IsMoved(before, p) || (item.operation.Move? && p == item.source)
  {
    assert item in after;
    forall p | IsTarget(before, p) ensures IsTarget(after, p) {
      var a :| a in before && a.destination == p;
      assert a in after;
    }
    forall p | IsMoved(before, p) ensures IsMoved(after, p) {
      var a :| a in before && a.operation.Move? && a.source == p;
      assert a in after;
    }
  }

  lemma AtOnceStep(fs: Fs, items: seq<Item>, g: Fs)
    requires items != [] && Apart(fs, items[..|items| - 1], items[|items| - 1])
    requires AllAtOnce(fs, items[..|items| - 1], g)
    ensures AllAtOnce(fs, items, Applied(g, items[|items| - 1]))
  {
    var before, item := items[..|items| - 1], items[|items| - 1];
    LastAdded(items);
    OneMore(before, items, item);
    SourceStays(fs, before, item, g);
    AtOnceApplied(fs, before, items, item, g);
  }

  lemma LastAdded(items: seq<Item>)
    requires items != []
    ensures forall a :: a in items <==> a in items[..|items| - 1] || a == items[|items| - 1]
  {
    assert items == items[..|items| - 1] + [items[|items| - 1]];
  }

  lemma SourceStays(fs: Fs, before: seq<Item>, item: Item, g: Fs)
    requires Apart(fs, before, item) && AllAtOnce(fs, before, g)
    ensures item.source in fs && item.source in g && g[item.source] == fs[item.source]
  {
    assert !IsTarget(before, item.source) && !IsMoved(before, item.source);
  }

  lemma AtOnceApplied(fs: Fs, before: seq<Item>, after: seq<Item>, item: Item, g: Fs)
    requires AllAtOnce(fs, before, g)
    requires item.source in g && item.source in fs && g[item.source] == fs[item.source]
    requires item.destination !in fs && item.source != item.destination
    requires forall a :: a in before ==> a.destination != item.destination && a.destination != item.source
    requires forall a :: a in after <==> a in before || a == item
    requires forall p :: IsTarget(after, p) <==> IsTarget(before, p) || p == item.destination
    requires forall p :: IsMoved(after, p) <==> IsMoved(before, p) || (item.operation.Move? && p == item.source)
    ensures AllAtOnce(fs, after, Applied(g, item))
  {
    var h := Applied(g, item);
    forall p | p in h ensures IsTarget(after, p) || (p in fs && h[p] == fs[p] && !IsMoved(after, p)) {}
    forall p | p in fs && !IsMoved(after, p) ensures p in h {}
    forall a | a in after ensures a.destination in h && a.source in fs && h[a.destination] == fs[a.source] {}
  }

  /** One after the other is all at once. */
  lemma {:induction false} OneByOneIsAtOnce(fs: Fs, items: seq<Item>)
    requires Orderly(fs, items)
    ensures AllAtOnce(fs, items, OneByOne(fs, items))
    decreases |items|
  {
    if items != [] {
      OneByOneIsAtOnce(fs, items[..|items| - 1]);
      AtOnceStep(fs, items, OneByOne(fs, items[..|items| - 1]));
    }
  }

  lemma PlannedAgain(hash: Content -> Digest, fs: Fs, items: seq<Item>, k: nat)
    requires Orderly(fs, items) && k < |items|
    ensures Preflight(hash, OneByOne(fs, items[..k]), items[k]) == Preflight(hash, fs, items[k])
  {
    OrderlyPrefix(fs, items, k);
    OneByOneIsAtOnce(fs, items[..k]);
    StillPlanned(hash, fs, items[..k], items[k], OneByOne(fs, items[..k]));
  }

  /** The results so far, and the file system they left. */
  predicate Progress(fs: Fs, items: seq<Item>, plans: seq<Plan>, ios: nat -> Io, n: nat, r: (Fs, seq<ItemResult>))
    requires n <= |items| == |plans|
  {
    var k := if Stopped(r.1) then |r.1| - 1 else |r.1|;
    && k <= n
    && (forall i :: 0 <= i < k ==> r.1[i] == Completed(plans[i]))
    && (Stopped(r.1) ==> k < n && r.1[k] == Failed(IoError) && !QuietIo(ios(k)))
    && (!Stopped(r.1) ==> k == n)
    && (!Stopped(r.1) || Contained(ios(k)) ==> r.0 == OneByOne(fs, items[..k]))
  }

  lemma TurnIs(hash: Content -> Digest, fs: Fs, plan: Plan, io: Io)
    requires Preflight(hash, fs, plan.item) == Ok(plan) && Undisturbed(hash, io)
    ensures var (h, result) := Turn(hash, fs, plan, io);
      && (result == Completed(plan) || result == Failed(IoError))
      && (result == Completed(plan) ==> h == Applied(fs, plan.item))
      && (result == Failed(IoError) ==> !QuietIo(io) && (Contained(io) ==> h == fs))
  {
    AllOrNothing(hash, fs, plan, io);
    if Places(fs, plan.item, io) && Garbled(fs, io, plan.item) { ChecksCatchGarbled(hash, fs, plan, io); }
    if QuietIo(io) { QuietCompletes(hash, fs, plan, io); }
  }

  lemma QuietCompletes(hash: Content -> Digest, fs: Fs, plan: Plan, io: Io)
    requires Preflight(hash, fs, plan.item) == Ok(plan) && QuietIo(io)
    ensures Execute(hash, fs, plan, io).done
  {}

  /** The turn of item `i` can only go one of the two ways of an undisturbed transfer. */
  ghost predicate Foreseen(hash: Content -> Digest, fs: Fs, items: seq<Item>, plans: seq<Plan>, ios: nat -> Io, i: nat)
    requires i < |items| == |plans|
  {
    Undisturbed(hash, ios(i)) && Preflight(hash, OneByOne(fs, items[..i]), items[i]) == Ok(plans[i])
  }

  lemma {:induction false} ExecutedIs(hash: Content -> Digest, fs: Fs, items: seq<Item>, plans: seq<Plan>,
                                      ios: nat -> Io, n: nat)
    requires n <= |items| == |plans|
    requires forall i: nat :: i < n ==> Foreseen(hash, fs, items, plans, ios, i)
    ensures Progress(fs, items, plans, ios, n, Executed(hash, fs, plans, ios, n))
  {
    if n > 0 {
      ExecutedIs(hash, fs, items, plans, ios, n - 1);
      ExecutedNext(hash, fs, items, plans, ios, n - 1);
    }
  }

  lemma ExecutedNext(hash: Content -> Digest, fs: Fs, items: seq<Item>, plans: seq<Plan>, ios: nat -> Io, n: nat)
    requires n < |items| == |plans| && Foreseen(hash, fs, items, plans, ios, n)
    requires Progress(fs, items, plans, ios, n, Executed(hash, fs, plans, ios, n))
    ensures Progress(fs, items, plans, ios, n + 1, Executed(hash, fs, plans, ios, n + 1))
  {
    var r := Executed(hash, fs, plans, ios, n);
    if !Stopped(r.1) { NextTurn(hash, fs, items, plans, ios, n, r); }
  }

  lemma NextTurn(hash: Content -> Digest, fs: Fs, items: seq<Item>, plans: seq<Plan>, ios: nat -> Io, n: nat,
                 r: (Fs, seq<ItemResult>))
    requires n < |items| == |plans| && Progress(fs, items, plans, ios, n, r) && !Stopped(r.1)
    requires Preflight(hash, r.0, items[n]) == Ok(plans[n]) && Undisturbed(hash, ios(n))
    ensures var t := Turn(hash, r.0, plans[n], ios(n)); Progress(fs, items, plans, ios, n + 1, (t.0, r.1 + [t.1]))
  {
    PreflightIs(hash, r.0, items[n]);
    TurnIs(hash, r.0, plans[n], ios(n));
    OneResult(fs, items, plans, ios, n, r, Turn(hash, r.0, plans[n], ios(n)));
  }

  lemma OneResult(fs: Fs, items: seq<Item>, plans: seq<Plan>, ios: nat -> Io, n: nat, r: (Fs, seq<ItemResult>),
                  t: (Fs, ItemResult))
    requires n < |items| == |plans| && Progress(fs, items, plans, ios, n, r) && !Stopped(r.1)
    requires t.1 == Completed(plans[n]) || t.1 == Failed(IoError)
    requires t.1 == Completed(plans[n]) ==> t.0 == Applied(r.0, items[n])
    requires t.1 == Failed(IoError) ==> !QuietIo(ios(n)) && (Contained(ios(n)) ==> t.0 == r.0)
    ensures Progress(fs, items, plans, ios, n + 1, (t.0, r.1 + [t.1]))
  {
    var more := r.1 + [t.1];
    assert forall i :: 0 <= i < n ==> more[i] == r.1[i];
    assert more[|more| - 1] == t.1;
    assert items[..n + 1][..n] == items[..n];
  }

  /** What the executing loop does once the checks have passed. */
  lemma CheckedBatch(hash: Content -> Digest, fs: Fs, items: seq<Item>, plans: seq<Plan>, ios: nat -> Io)
    requires Checked(fs, items) && Planned(hash, fs, items, plans)
    requires forall i: nat :: i < |items| ==> Undisturbed(hash, ios(i))
    ensures Progress(fs, items, plans, ios, |items|, Executed(hash, fs, plans, ios, |items|))
  {
    CheckedIsOrderly(fs, items);
    forall i: nat | i < |items| ensures Foreseen(hash, fs, items, plans, ios, i) {
      PlannedAgain(hash, fs, items, i);
    }
    ExecutedIs(hash, fs, items, plans, ios, |items|);
  }

  // ------------------------------------------------------------------ main results

  /** With nothing failing, a batch is accepted exactly when it has 1 to 100 compatible
      items; then every item completes and the file system is all copies and moves applied
      at once. A refused batch changes nothing. */
  lemma BatchIsSimultaneous(hash: Content -> Digest, fs: Fs, items: seq<Item>, ios: nat -> Io)
    requires forall i: nat :: i < |items| ==> QuietIo(ios(i))
    ensures var (g, r) := Batch(hash, fs, items, ios);
      && (r.Ok? <==> 1 <= |items| <= HARD_BATCH_ITEMS && Compatible(fs, multiset(items)))
      && (r.Ok? ==> r.value.complete && r.value.completed == |items| && AllAtOnce(fs, items, g))
      && (r.Err? ==> g == fs)
  {
    BatchAccepts(hash, fs, items, ios);
    if Batch(hash, fs, items, ios).1.Ok? { AcceptedCompletes(hash, fs, items, ios); }
  }

  lemma AcceptedCompletes(hash: Content -> Digest, fs: Fs, items: seq<Item>, ios: nat -> Io)
    requires Batch(hash, fs, items, ios).1.Ok? && forall i: nat :: i < |items| ==> QuietIo(ios(i))
    ensures var (g, r) := Batch(hash, fs, items, ios);
      r.value.complete && r.value.completed == |items| && AllAtOnce(fs, items, g)
  {
    var plans := Plans(hash, fs, items).value;
    AcceptedIsChecked(hash, fs, items, ios);
    CheckedBatch(hash, fs, items, plans, ios);
    ReceiptShape(fs, items, plans, ios, Executed(hash, fs, plans, ios, |plans|));
    CheckedIsOrderly(fs, items);
    OneByOneIsAtOnce(fs, items);
    assert items[..|items|] == items;
  }

  lemma BatchAccepts(hash: Content -> Digest, fs: Fs, items: seq<Item>, ios: nat -> Io)
    ensures var (g, r) := Batch(hash, fs, items, ios);
      && (r.Ok? <==> 1 <= |items| <= HARD_BATCH_ITEMS && Compatible(fs, multiset(items)))
      && (r.Err? ==> g == fs)
  {
    ChecksAreExact(hash, fs, items);
  }

  /** The order of the items does not matter, neither for the verdict nor for the files. */
  lemma BatchOrderIsIrrelevant(hash: Content -> Digest, fs: Fs, a: seq<Item>, b: seq<Item>, ios: nat -> Io)
    requires multiset(a) == multiset(b) && forall i: nat :: i < |a| ==> QuietIo(ios(i))
    ensures Batch(hash, fs, a, ios).1.Ok? == Batch(hash, fs, b, ios).1.Ok?
    ensures Batch(hash, fs, a, ios).0 == Batch(hash, fs, b, ios).0
  {
    assert |a| == |multiset(a)| && |b| == |multiset(b)|;
    BatchIsSimultaneous(hash, fs, a, ios);
    BatchIsSimultaneous(hash, fs, b, ios);
    if Batch(hash, fs, a, ios).1.Ok? {
      AllAtOnceUnique(fs, a, b, Batch(hash, fs, a, ios).0, Batch(hash, fs, b, ios).0);
    }
  }

  /** Completed up to some item, that one failed, the rest not executed. */
  predicate Shape(r: BatchReceipt, items: seq<Item>) {
    && r.total == |r.items| == |items| && r.completed <= |items|
    && (forall i :: 0 <= i < r.completed ==> r.items[i].Completed? && r.items[i].receipt.item == items[i])
    && (r.complete <==> r.completed == |items|)
    && (forall i :: r.completed < i < |items| ==> r.items[i].NotExecuted?)
    && (r.completed < |items| ==> r.items[r.completed].Failed?)
  }

  lemma ReceiptShape(fs: Fs, items: seq<Item>, plans: seq<Plan>, ios: nat -> Io, r: (Fs, seq<ItemResult>))
    requires |items| == |plans| && Progress(fs, items, plans, ios, |items|, r)
    requires forall i :: 0 <= i < |items| ==> plans[i].item == items[i]
    ensures |r.1| <= |plans| && Shape(ReceiptOf(r.1, |plans|), items)
    ensures var k := ReceiptOf(r.1, |plans|).completed;
      k == |items| || Contained(ios(k)) ==> r.0 == OneByOne(fs, items[..k])
  {}

  /** A batch that fails at one item: those before it are completed, those after it are
      not executed, and with the clean-up working the file system is that of the
      completed items alone. */
  lemma PartialBatch(hash: Content -> Digest, fs: Fs, items: seq<Item>, ios: nat -> Io)
    requires forall i: nat :: i < |items| ==> Undisturbed(hash, ios(i))
    requires Batch(hash, fs, items, ios).1.Ok?
    ensures var (g, r) := Batch(hash, fs, items, ios);
      && Shape(r.value, items)
      && (r.value.completed == |items| || Contained(ios(r.value.completed)) ==>
            AllAtOnce(fs, items[..r.value.completed], g))
  {
    var plans := Plans(hash, fs, items).value;
    AcceptedIsChecked(hash, fs, items, ios);
    CheckedBatch(hash, fs, items, plans, ios);
    ReceiptShape(fs, items, plans, ios, Executed(hash, fs, plans, ios, |plans|));
    CheckedIsOrderly(fs, items);
    OrderlyPrefix(fs, items, Batch(hash, fs, items, ios).1.value.completed);
    OneByOneIsAtOnce(fs, items[..Batch(hash, fs, items, ios).1.value.completed]);
  }

  lemma AcceptedIsChecked(hash: Content -> Digest, fs: Fs, items: seq<Item>, ios: nat -> Io)
    requires Batch(hash, fs, items, ios).1.Ok?
    ensures var plans := Plans(hash, fs, items);
      && plans.Ok? && |plans.value| == |items| && Checked(fs, items) && Planned(hash, fs, items, plans.value)
      && forall i :: 0 <= i < |items| ==> plans.value[i].item == items[i]
  {
    ChecksAreExact(hash, fs, items);
    PlansAre(hash, fs, items);
    CompatibleByIndex(fs, items);
    PlannedItems(hash, fs, items, Plans(hash, fs, items).value);
  }

  /** Whatever happened to the files since the first preflight: an item completes only if
      its source still has the digest recorded then, and nothing else is touched. */
  lemma TurnHonoursPreflight(hash: Content -> Digest, fs: Fs, plan: Plan, io: Io)
    ensures var (g, result) := Turn(hash, fs, plan, io);
      var found := io.meanwhile.Or(fs);
      && OthersKept(found, g, plan.item)
      && (result.Completed? ==>
            && Bytes(found, plan.item.source).Some? && hash(Bytes(found, plan.item.source).value) == plan.sha256
            && result.receipt.sha256 == plan.sha256 && plan.item.destination !in found)
  {
    var found := io.meanwhile.Or(fs);
    var current := Preflight(hash, found, plan.item);
    if current.Ok? { EveryMomentKeepsOthers(hash, found, current.value, io); }
  }
}
