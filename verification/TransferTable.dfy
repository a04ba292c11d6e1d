/** When a transfer completes, what it leaves, and which error is reported, told by the files
    and by what the environment does. */
module TransferTable {
  import opened Options
  import opened Transfers
  import opened TransferSafety

  predicate HasFile(fs: Fs, p: Path) { p in fs && fs[p].File? }

  /** The answers of the preflight. */
  lemma PreflightReports(hash: Content -> Digest, fs: Fs, item: Item)
    ensures var r := Preflight(hash, fs, item);
      var room := item.source in fs && IsDirectory(fs, Parent(item.destination));
      && (r == Err(NotFound) <==> !room)
      && (r == Err(AlreadyExists) <==> room && item.destination in fs)
      && (r == Err(InvalidArgument) <==> room && item.destination !in fs && fs[item.source].Directory?)
      && (r.Ok? <==> room && item.destination !in fs && fs[item.source].File?)
      && (r.Ok? ==> r.value == Plan(item, |fs[item.source].content|, hash(fs[item.source].content)))
  {}

  // ------------------------------------------------------------------ one transfer

  /** The content that comes to stand at the destination. */
  function Arrived(item: Item, io: Io, content: Content): Content {
    if (item.operation.Move? && !io.crossDevice) || io.garbled.None? then content else io.garbled.value
  }

  /** The content as it is read has the digest. */
  predicate HasDigest(hash: Content -> Digest, reading: Reading, content: Content, digest: Digest) {
    (reading.Faithful? && hash(content) == digest) || reading == Misread(digest)
  }

  /** The file is placed at a free destination in a directory. */
  predicate Arrives(fs: Fs, item: Item, io: Io) {
    && io.placing.Goes? && HasFile(fs, item.source) && item.destination !in fs
    && IsDirectory(fs, Parent(item.destination))
  }

  /** What arrived has the digest and the length of the plan, and the source still has that
      digest. */
  predicate Passes(hash: Content -> Digest, fs: Fs, plan: Plan, io: Io)
    requires HasFile(fs, plan.item.source)
  {
    var content := fs[plan.item.source].content;
    var arrived := Arrived(plan.item, io, content);
    && HasDigest(hash, io.verify, arrived, plan.sha256) && io.measures && |arrived| == plan.byteLength
    && HasDigest(hash, io.recheck, content, plan.sha256)
  }

  /** A transfer completes exactly when the file arrives, passes the checks and, for a move,
      the source is removed. */
  lemma DoneExactly(hash: Content -> Digest, fs: Fs, plan: Plan, io: Io)
    ensures Execute(hash, fs, plan, io).done <==>
      Arrives(fs, plan.item, io) && Passes(hash, fs, plan, io) && (plan.item.operation.Move? ==> io.unlinks.Removed?)
  {
    if Arrives(fs, plan.item, io) { VerifiedIs(hash, fs, plan, io); }
  }

  lemma VerifiedIs(hash: Content -> Digest, fs: Fs, plan: Plan, io: Io)
    requires Arrives(fs, plan.item, io)
    ensures Verified(hash, Placed(fs, plan.item, io), plan, io) <==> Passes(hash, fs, plan, io)
  {}

  /** What a completed transfer leaves. */
  lemma DoneLeaves(hash: Content -> Digest, fs: Fs, plan: Plan, io: Io)
    requires Execute(hash, fs, plan, io).done
    ensures var placed :=
        fs[plan.item.destination := File(Arrived(plan.item, io, fs[plan.item.source].content))];
      Execute(hash, fs, plan, io).fs == if plan.item.operation.Move? then placed - {plan.item.source} else placed
  {}

  /** A failing transfer leaves the files as they were; unless the destination stays behind,
      or the source was removed before the failure was reported. */
  lemma FailureLeaves(hash: Content -> Digest, fs: Fs, plan: Plan, io: Io)
    requires !Execute(hash, fs, plan, io).done
    ensures var o := Execute(hash, fs, plan, io);
      if Arrives(fs, plan.item, io) then
        var placed := fs[plan.item.destination := File(Arrived(plan.item, io, fs[plan.item.source].content))];
        var gone := Passes(hash, fs, plan, io) && plan.item.operation.Move? && io.unlinks.Unreported?;
        var left := if gone then placed - {plan.item.source} else placed;
        o.fs == if io.cleans then left - {plan.item.destination} else left
      else if HasFile(fs, plan.item.source) && io.placing.FailsHalfway? && plan.item.destination !in fs
              && IsDirectory(fs, Parent(plan.item.destination)) && (plan.item.operation.Copy? || io.crossDevice) then
        o.fs == fs[plan.item.destination := File(io.partial)]
      else o.fs == fs
  {
    if Arrives(fs, plan.item, io) { VerifiedIs(hash, fs, plan, io); }
  }

  /** The answers of one turn of a batch: the preflight is repeated on what is found, and its
      plan must still have the digest. */
  lemma TurnReports(hash: Content -> Digest, fs: Fs, plan: Plan, io: Io)
    ensures var (g, result) := Turn(hash, fs, plan, io);
      var found := io.meanwhile.Or(fs);
      var again := Preflight(hash, found, plan.item);
      && (again.Err? ==> result == Failed(again.code) && g == found)
      && (again.Ok? && hash(found[plan.item.source].content) != plan.sha256 ==>
            result == Failed(StalePrecondition) && g == found)
      && (again.Ok? && hash(found[plan.item.source].content) == plan.sha256 ==>
            && g == Execute(hash, found, again.value, io).fs
            && result == if Execute(hash, found, again.value, io).done then Completed(again.value) else Failed(IoError))
  {}

  // ---------------------------------------------------------------------- batches

  /** One of the first `k` items has the destination. */
  predicate Taken(items: seq<Item>, k: nat, p: Path)
    requires k <= |items|
  {
    exists i :: 0 <= i < k && items[i].destination == p
  }

  /** The first item that cannot be planned, by its own preflight or because an earlier one
      has its destination. */
  predicate FirstRefused(hash: Content -> Digest, fs: Fs, items: seq<Item>, k: nat, code: Code)
    requires k < |items|
  {
    && (forall i :: 0 <= i < k ==> Preflight(hash, fs, items[i]).Ok?)
    && (forall i, j :: 0 <= i < j < k ==> items[i].destination != items[j].destination)
    && if Preflight(hash, fs, items[k]).Err? then Preflight(hash, fs, items[k]).code == code
       else code == InvalidArgument && Taken(items, k, items[k].destination)
  }

  lemma {:induction false} PlansRefuse(hash: Content -> Digest, fs: Fs, items: seq<Item>) returns (k: nat)
    requires Plans(hash, fs, items).Err?
    ensures k < |items| && FirstRefused(hash, fs, items, k, Plans(hash, fs, items).code)
  {
    var n := |items| - 1;
    var front := items[..n];
    if Plans(hash, fs, front).Err? {
      k := PlansRefuse(hash, fs, front);
      RefusedLater(hash, fs, items, k, Plans(hash, fs, front).code);
    } else {
      k := n;
      PlansAre(hash, fs, front);
      PlannedItems(hash, fs, front, Plans(hash, fs, front).value);
      assert forall i :: 0 <= i < n ==> front[i] == items[i];
      assert forall p :: p in Destinations(Plans(hash, fs, front).value) <==> Taken(items, n, p);
      AllPlanned(hash, fs, items);
    }
  }

  lemma RefusedLater(hash: Content -> Digest, fs: Fs, items: seq<Item>, k: nat, code: Code)
    requires items != [] && k < |items| - 1 && FirstRefused(hash, fs, items[..|items| - 1], k, code)
    ensures FirstRefused(hash, fs, items, k, code)
  {
    assert forall i :: 0 <= i <= k ==> items[..|items| - 1][i] == items[i];
  }

  lemma AllPlanned(hash: Content -> Digest, fs: Fs, items: seq<Item>)
    requires items != [] && AllReady(fs, items[..|items| - 1]) && DistinctTargets(items[..|items| - 1])
    requires Plans(hash, fs, items[..|items| - 1]).Ok? && Plans(hash, fs, items).Err?
    requires var plans := Plans(hash, fs, items[..|items| - 1]).value;
      forall p :: p in Destinations(plans) <==> Taken(items, |items| - 1, p)
    ensures FirstRefused(hash, fs, items, |items| - 1, Plans(hash, fs, items).code)
  {
    var n := |items| - 1;
    forall i | 0 <= i < n ensures Preflight(hash, fs, items[i]).Ok? {
      assert items[..n][i] == items[i];
      PreflightIs(hash, fs, items[i]);
    }
    assert forall i :: 0 <= i < n ==> items[..n][i] == items[i];
    PreflightIs(hash, fs, items[n]);
  }

  /** Why a batch is refused: its size, the first item that cannot be planned, or two plans
      in each other's way. */
  lemma BatchReports(hash: Content -> Digest, fs: Fs, items: seq<Item>, ios: nat -> Io)
    requires Batch(hash, fs, items, ios).1.Err?
    ensures var (g, r) := Batch(hash, fs, items, ios);
      && g == fs
      && (|items| < 1 || |items| > 100 ==> r.code == InvalidArgument)
      && (1 <= |items| <= 100 ==>
            || (r.code == InvalidArgument && AllReady(fs, items) && DistinctTargets(items) && !Disjoint(items))
            || exists k: nat :: k < |items| && FirstRefused(hash, fs, items, k, r.code))
  {
    if 1 <= |items| <= 100 {
      var plans := Plans(hash, fs, items);
      if plans.Err? {
        var k := PlansRefuse(hash, fs, items);
      } else {
        PlansAre(hash, fs, items);
        PlannedItems(hash, fs, items, plans.value);
        SourcesAre(items, plans.value);
      }
    }
  }
}
