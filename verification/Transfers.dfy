/** Copies and moves of files, alone and in batches
    (packages/core/src/files/files-service.ts:586-745). Paths are canonical. */
module Transfers {
  import opened Options

  type Path = seq<string>

  type Content = string

  type Digest = string

  datatype Node = File(content: Content) | Directory

  type Fs = map<Path, Node>

  datatype Operation = Copy | Move

  datatype Item = Item(operation: Operation, source: Path, destination: Path)

  datatype Plan = Plan(item: Item, byteLength: nat, sha256: Digest)

  datatype Code = InvalidArgument | NotFound | AlreadyExists | StalePrecondition | IoError

  datatype Result<+T> = Ok(value: T) | Err(code: Code)

  /** What a hash of a file yields. */
  datatype Reading = Faithful | ReadFails | Misread(digest: Digest)

  /** Removing the source: done, refused, or done though an error is reported. */
  datatype Removal = Removed | Refused | Unreported

  /** The link or the exclusive copy goes through, fails, or fails once it has opened the
      destination and leaves a part of the content there. */
  datatype Placing = Goes | Fails | FailsHalfway

  /** What the environment does to one transfer: `meanwhile` is the file system found
      when it starts, `partial` what a copy holds half-way, `garbled` what it holds in the end. */
  datatype Io = Io(
    meanwhile: Option<Fs>,
    crossDevice: bool,
    placing: Placing,
    partial: Content,
    garbled: Option<Content>,
    verify: Reading,
    measures: bool,
    recheck: Reading,
    unlinks: Removal,
    cleans: bool)

  function Parent(p: Path): Path {
    if p == [] then [] else p[..|p| - 1]
  }

  function Bytes(fs: Fs, p: Path): Option<Content> {
    if p in fs && fs[p].File? then Some(fs[p].content) else None
  }

  predicate IsDirectory(fs: Fs, p: Path) { p in fs && fs[p].Directory? }

  /** `#preflightTransfer` */
  function Preflight(hash: Content -> Digest, fs: Fs, item: Item): Result<Plan> {
    if item.source !in fs then Err(NotFound)
    else if !IsDirectory(fs, Parent(item.destination)) then Err(NotFound)
    else if item.destination in fs then Err(AlreadyExists)
    else if Bytes(fs, item.source).None? then Err(InvalidArgument)
    else
      var content := Bytes(fs, item.source).value;
      Ok(Plan(item, |content|, hash(content)))
  }

  // ------------------------------------------------------------------ one transfer

  /** After a transfer: `moments` are the states it went through, each a place where the
      process may die; `done` is false when it throws. */
  datatype Outcome = Outcome(fs: Fs, moments: seq<Fs>, done: bool)

  /** The destination can be created. */
  predicate Opens(fs: Fs, item: Item) {
    Bytes(fs, item.source).Some? && item.destination !in fs && IsDirectory(fs, Parent(item.destination))
  }

  predicate Links(item: Item, io: Io) { item.operation.Move? && !io.crossDevice }

  /** The link or the exclusive copy succeeds. */
  predicate Places(fs: Fs, item: Item, io: Io) { io.placing.Goes? && Opens(fs, item) }

  /** The copy fails with the destination already there, which then is not cleaned up. */
  predicate Strands(fs: Fs, item: Item, io: Io) { io.placing.FailsHalfway? && !Links(item, io) && Opens(fs, item) }

  function Placed(fs: Fs, item: Item, io: Io): Fs
    requires Bytes(fs, item.source).Some?
  {
    if Links(item, io) then fs[item.destination := fs[item.source]]
    else fs[item.destination := File(io.garbled.Or(fs[item.source].content))]
  }

  function Read(hash: Content -> Digest, reading: Reading, content: Option<Content>): Option<Digest> {
    match reading
    case Faithful => if content.Some? then Some(hash(content.value)) else None
    case ReadFails => None
    case Misread(digest) => Some(digest)
  }

  predicate Verified(hash: Content -> Digest, fs: Fs, plan: Plan, io: Io) {
    && Read(hash, io.verify, Bytes(fs, plan.item.destination)) == Some(plan.sha256)
    && io.measures && Bytes(fs, plan.item.destination).Some?
    && |Bytes(fs, plan.item.destination).value| == plan.byteLength
    && Read(hash, io.recheck, Bytes(fs, plan.item.source)) == Some(plan.sha256)
  }

  /** The catch block, once the destination was created. */
  function CleanUp(fs: Fs, destination: Path, io: Io): Fs {
    if io.cleans then fs - {destination} else fs
  }

  function Finish(hash: Content -> Digest, fs: Fs, plan: Plan, io: Io): (Fs, bool) {
    if !Verified(hash, fs, plan, io) then (CleanUp(fs, plan.item.destination, io), false)
    else if plan.item.operation.Copy? then (fs, true)
    else
      match io.unlinks
      case Removed => (fs - {plan.item.source}, true)
      case Refused => (CleanUp(fs, plan.item.destination, io), false)
      case Unreported => (CleanUp(fs - {plan.item.source}, plan.item.destination, io), false)
  }

  /** `#executeTransfer` */
  function Execute(hash: Content -> Digest, fs: Fs, plan: Plan, io: Io): Outcome {
    if Strands(fs, plan.item, io) then
      var left := fs[plan.item.destination := File(io.partial)];
      Outcome(left, [fs, left], false)
    else if !Places(fs, plan.item, io) then Outcome(fs, [fs], false)
    else
      var placed := Placed(fs, plan.item, io);
      var (end, done) := Finish(hash, placed, plan, io);
      var copying := if Links(plan.item, io) then [] else [fs[plan.item.destination := File(io.partial)]];
      var removed :=
        if Verified(hash, placed, plan, io) && plan.item.operation.Move? && !io.unlinks.Refused?
          then [placed - {plan.item.source}] else [];
      Outcome(end, [fs] + copying + [placed] + removed + (if !done && io.cleans then [end] else []), done)
  }

  // ---------------------------------------------------------------------- batches

  const HARD_BATCH_ITEMS := 100

  datatype ItemResult = Completed(receipt: Plan) | Failed(code: Code) | NotExecuted

  datatype BatchReceipt = BatchReceipt(complete: bool, completed: nat, total: nat, items: seq<ItemResult>)

  /** The preflight of all items, each against those before it. */
  function Plans(hash: Content -> Digest, fs: Fs, items: seq<Item>): Result<seq<Plan>> {
    if items == [] then Ok([])
    else
      var front := Plans(hash, fs, items[..|items| - 1]);
      if front.Err? then front
      else
        var plan := Preflight(hash, fs, items[|items| - 1]);
        if plan.Err? then Err(plan.code)
        else if plan.value.item.destination in Destinations(front.value) then Err(InvalidArgument)
        else Ok(front.value + [plan.value])
  }

  function Destinations(plans: seq<Plan>): set<Path> {
    set i | 0 <= i < |plans| :: plans[i].item.destination
  }

  function Sources(plans: seq<Plan>): set<Path> {
    set i | 0 <= i < |plans| :: plans[i].item.source
  }

  predicate Overlap(plans: seq<Plan>) {
    exists i :: 0 <= i < |plans| && plans[i].item.destination in Sources(plans)
  }

  /** Some file is moved and used once more. */
  predicate Contended(plans: seq<Plan>) {
    exists i, j :: 0 <= i < |plans| && 0 <= j < |plans| && i != j &&
      plans[i].item.operation.Move? && plans[j].item.source == plans[i].item.source
  }

  /** One turn of the executing loop. */
  function Turn(hash: Content -> Digest, fs: Fs, plan: Plan, io: Io): (Fs, ItemResult) {
    var fs := io.meanwhile.Or(fs);
    var current := Preflight(hash, fs, plan.item);
    if current.Err? then (fs, Failed(current.code))
    else if current.value.sha256 != plan.sha256 then (fs, Failed(StalePrecondition))
    else
      var o := Execute(hash, fs, current.value, io);
      (o.fs, if o.done then Completed(current.value) else Failed(IoError))
  }

  predicate Stopped(results: seq<ItemResult>) {
    results != [] && results[|results| - 1].Failed?
  }

  /** The first `n` items, as far as the loop gets: it stops at the first failure. */
  function Executed(hash: Content -> Digest, fs: Fs, plans: seq<Plan>, ios: nat -> Io,
                    n: nat): (r: (Fs, seq<ItemResult>))
    requires n <= |plans|
    ensures |r.1| <= n
    ensures !Stopped(r.1) ==> |r.1| == n
  {
    if n == 0 then (fs, [])
    else
      var (before, results) := Executed(hash, fs, plans, ios, n - 1);
      if Stopped(results) then (before, results)
      else
        var (after, result) := Turn(hash, before, plans[n - 1], ios(n - 1));
        (after, results + [result])
  }

  function Padded(results: seq<ItemResult>, total: nat): seq<ItemResult>
    requires |results| <= total
  {
    results + seq(total - |results|, _ => NotExecuted)
  }

  function ReceiptOf(results: seq<ItemResult>, total: nat): BatchReceipt
    requires |results| <= total
  {
    if Stopped(results) then
      BatchReceipt(false, |results| - 1, total, Padded(results, total))
    else BatchReceipt(true, |results|, total, results)
  }

  /** `batchTransfer`; Err when it throws. */
  function Batch(hash: Content -> Digest, fs: Fs, items: seq<Item>, ios: nat -> Io): (Fs, Result<BatchReceipt>) {
    if |items| < 1 || |items| > HARD_BATCH_ITEMS then (fs, Err(InvalidArgument))
    else
      var plans := Plans(hash, fs, items);
      if plans.Err? then (fs, Err(plans.code))
      else if Overlap(plans.value) || Contended(plans.value) then (fs, Err(InvalidArgument))
      else
        var (after, results) := Executed(hash, fs, plans.value, ios, |plans.value|);
        (after, Ok(ReceiptOf(results, |plans.value|)))
  }
}
