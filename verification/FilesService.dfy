/** The transfer methods of the files service, changing the file system step by step. */
module Files {
  import opened Options
  import opened Transfers
  import opened TransferSafety

  class FilesService {
    const hash: Content -> Digest
    var fs: Fs
    /** The states the transfer under way went through. */
    var trail: seq<Fs>

    constructor (hash: Content -> Digest, fs: Fs)
      ensures this.hash == hash && this.fs == fs
    {
      this.hash, this.fs, trail := hash, fs, [];
    }

    method Become(next: Fs)
      modifies this`fs, this`trail
      ensures fs == next && trail == old(trail) + [next]
    {
      fs, trail := next, trail + [next];
    }

    method PreflightTransfer(item: Item) returns (plan: Result<Plan>)
      ensures plan == Preflight(hash, fs, item)
    {
      if item.source !in fs || !IsDirectory(fs, Parent(item.destination)) { return Err(NotFound); }
      if item.destination in fs { return Err(AlreadyExists); }
      if fs[item.source].Directory? { return Err(InvalidArgument); }
      var content := fs[item.source].content;
      return Ok(Plan(item, |content|, hash(content)));
    }

    /** The link, or the exclusive copy; `created` is set only when it returns. */
    method Place(item: Item, io: Io) returns (created: bool)
      modifies this`fs, this`trail
      ensures created == Places(old(fs), item, io)
      ensures created ==> fs == Placed(old(fs), item, io)
      ensures created ==>
                trail == old(trail)
                  + (if Links(item, io) then [] else [old(fs)[item.destination := File(io.partial)]]) + [fs]
      ensures !created && Strands(old(fs), item, io) ==>
                fs == old(fs)[item.destination := File(io.partial)] && trail == old(trail) + [fs]
      ensures !created && !Strands(old(fs), item, io) ==> fs == old(fs) && trail == old(trail)
    {
      if io.placing.Fails? || !Opens(fs, item) { return false; }
      var before := fs;
      if item.operation.Move? && !io.crossDevice {
        if io.placing.FailsHalfway? { return false; }
        Become(before[item.destination := before[item.source]]);
      } else {
        Become(before[item.destination := File(io.partial)]);
        if io.placing.FailsHalfway? { return false; }
        Become(before[item.destination := File(io.garbled.Or(before[item.source].content))]);
      }
      return true;
    }

    method ExecuteTransfer(plan: Plan, io: Io) returns (done: bool)
      modifies this`fs, this`trail
      ensures Outcome(fs, trail, done) == Execute(hash, old(fs), plan, io)
      ensures OthersKept(old(fs), fs, plan.item) && (done || LeavesTraces(hash, old(fs), plan, io) || fs == old(fs))
      ensures done && !Garbled(old(fs), io, plan.item) ==> fs == Applied(old(fs), plan.item)
    {
      EveryMomentKeepsOthers(hash, fs, plan, io);
      AllOrNothing(hash, fs, plan, io);
      trail := [fs];
      var created := Place(plan.item, io);
      if !created { return false; }
      if Verified(hash, fs, plan, io) {
        if plan.item.operation.Copy? { return true; }
        if !io.unlinks.Refused? { Become(fs - {plan.item.source}); }
        if io.unlinks.Removed? { return true; }
      }
      if io.cleans { Become(fs - {plan.item.destination}); }
      return false;
    }

    /** One transfer: preflight, then execution. */
    method Transfer(item: Item, io: Io) returns (receipt: Option<Plan>)
      modifies this`fs, this`trail
      ensures var plan := Preflight(hash, old(fs), item);
        if plan.Err? then receipt == None && fs == old(fs)
        else
          var o := Execute(hash, old(fs), plan.value, io);
          fs == o.fs && receipt == if o.done then Some(plan.value) else None
      ensures OthersKept(old(fs), fs, item)
    {
      var plan := PreflightTransfer(item);
      if plan.Err? { return None; }
      var done := ExecuteTransfer(plan.value, io);
      return if done then Some(plan.value) else None;
    }

    /** The plans of a batch, with the sources and destinations collected on the way. */
    method PlanBatch(items: seq<Item>) returns (plans: Result<seq<Plan>>)
      ensures plans == Plans(hash, fs, items)
    {
      var accepted: seq<Plan> := [];
      var destinations := {};
      for i := 0 to |items|
        invariant Plans(hash, fs, items[..i]) == Ok(accepted)
        invariant destinations == Destinations(accepted)
      {
        assert items[..i + 1][..i] == items[..i];
        var plan := PreflightTransfer(items[i]);
        if plan.Err? || plan.value.item.destination in destinations {
          var code := if plan.Err? then plan.code else InvalidArgument;
          assert Plans(hash, fs, items[..i + 1]) == Err(code);
          FailureStays(hash, fs, items, i + 1);
          return Err(code);
        }
        DestinationAdded(accepted, plan.value);
        destinations := destinations + {plan.value.item.destination};
        accepted := accepted + [plan.value];
      }
      assert items[..|items|] == items;
      return Ok(accepted);
    }

    method BatchTransfer(items: seq<Item>, ios: nat -> Io) returns (receipt: Result<BatchReceipt>)
      modifies this`fs, this`trail
      ensures (fs, receipt) == Batch(hash, old(fs), items, ios)
    {
      if |items| < 1 || |items| > HARD_BATCH_ITEMS { return Err(InvalidArgument); }
      var planned := PlanBatch(items);
      if planned.Err? { return Err(planned.code); }
      var plans := planned.value;
      if Overlap(plans) || Contended(plans) { return Err(InvalidArgument); }
      ghost var before := fs;
      var results: seq<ItemResult> := [];
      for index := 0 to |plans|
        invariant (fs, results) == Executed(hash, before, plans, ios, index)
        invariant |results| == index && !Stopped(results)
      {
        var result := TakeTurn(plans[index], ios(index));
        results := results + [result];
        if result.Failed? {
          StoppedStays(hash, before, plans, ios, index + 1, |plans|);
          var items := Padded(results, |plans|);
          return Ok(BatchReceipt(false, index, |plans|, items));
        }
      }
      return Ok(BatchReceipt(true, |plans|, |plans|, results));
    }

    /** The body of the executing loop: resolve again, compare the hash, execute. */
    method TakeTurn(plan: Plan, io: Io) returns (result: ItemResult)
      modifies this`fs, this`trail
      ensures (fs, result) == Turn(hash, old(fs), plan, io)
      ensures result.Completed? ==> result.receipt.sha256 == plan.sha256
    {
      fs := io.meanwhile.Or(fs);
      var current := PreflightTransfer(plan.item);
      if current.Err? { return Failed(current.code); }
      if current.value.sha256 != plan.sha256 { return Failed(StalePrecondition); }
      var done := ExecuteTransfer(current.value, io);
      return if done then Completed(current.value) else Failed(IoError);
    }
  }

  lemma DestinationAdded(plans: seq<Plan>, plan: Plan)
    ensures Destinations(plans + [plan]) == Destinations(plans) + {plan.item.destination}
  {
    var more := plans + [plan];
    assert forall i :: 0 <= i < |plans| ==> more[i] == plans[i];
    assert more[|plans|] == plan;
  }

  /** Once a preflight has failed, the remaining items do not matter. */
  lemma {:induction false} FailureStays(hash: Content -> Digest, fs: Fs, items: seq<Item>, n: nat)
    requires n <= |items| && Plans(hash, fs, items[..n]).Err?
    ensures Plans(hash, fs, items) == Plans(hash, fs, items[..n])
    decreases |items|
  {
    if n < |items| {
      assert items[..|items| - 1][..n] == items[..n];
      FailureStays(hash, fs, items[..|items| - 1], n);
    } else {
      assert items[..n] == items;
    }
  }

  lemma {:induction false} StoppedStays(hash: Content -> Digest, fs: Fs, plans: seq<Plan>, ios: nat -> Io, k: nat,
                                        n: nat)
    requires k <= n <= |plans| && Stopped(Executed(hash, fs, plans, ios, k).1)
    ensures Executed(hash, fs, plans, ios, n) == Executed(hash, fs, plans, ios, k)
  {
    if k < n { StoppedStays(hash, fs, plans, ios, k, n - 1); }
  }
}
