/**
 * Publishing invoice PDFs: workers read a sale, upload its PDF with create-if-absent, then record the
 * key on the sale. Several workers may be anywhere in this on the same sale at once.
 */
module Publication {
  import opened Prelude
  import opened Webhooks
  import Text
  import Leases = LeaseQueue

  type Bytes = seq<nat>

  /** SHA-256 stands in as an injective digest. */
  datatype Digest = Sha256(of: Bytes)

  /** UUIDs print as 36 characters. */
  type Uuid = s: string | |s| == 36 witness seq(36, _ => '0')

  /** f"{prefix}/{shop}/invoices/{year}/{id}.pdf", or None where build_invoice_object_key raises for an empty prefix. */
  function ObjectKey(prefix: string, shop: Uuid, year: nat, id: Uuid): Option<string> {
    var normalized := StripSlashes(Text.Strip(prefix));
    if normalized == "" then None
    else Some(normalized + "/" + shop + "/invoices/" + Text.Digits(year) + "/" + id + ".pdf")
  }

  function StripSlashes(s: string): string
    decreases |s|
  {
    if s != [] && s[0] == '/' then StripSlashes(s[1..])
    else if s != [] && s[|s| - 1] == '/' then StripSlashes(s[..|s| - 1])
    else s
  }

  /** The key ends in the sale's own id. */
  predicate Names(key: string, id: Uuid) {
    |key| >= 40 && key[|key| - 40..] == id + ".pdf"
  }

  lemma PrefixReads()
    ensures StripSlashes(Text.Strip(" /invoices/ ")) == "invoices" && StripSlashes(Text.Strip(" // ")) == ""
  {
    Text.StripOfPadded(" ", "/invoices/", " ");
    assert " " + "/invoices/" + " " == " /invoices/ ";
    assert "/invoices/"[1..] == "invoices/" && "invoices/"[..8] == "invoices";
    assert StripSlashes("invoices/") == "invoices";
    Text.StripOfPadded(" ", "//", " ");
    assert " " + "//" + " " == " // " && "//"[1..] == "/" && "/"[1..] == "";
    assert StripSlashes("/") == "";
  }

  lemma YearReads()
    ensures Text.Digits(2025) == "2025"
  {
    assert Text.Digits(2) == "2" && Text.Digits(20) == "20";
    assert Text.Digits(202) == "202";
  }

  /** The shape of a key: outer blanks and slashes of the prefix are dropped, the year is written in full. */
  lemma ObjectKeyReads(shop: Uuid, id: Uuid)
    ensures ObjectKey(" /invoices/ ", shop, 2025, id)
         == Some("invoices" + "/" + shop + "/invoices/" + "2025" + "/" + id + ".pdf")
    ensures ObjectKey(" // ", shop, 2025, id) == None
  {
    PrefixReads();
    YearReads();
  }

  lemma ObjectKeyNames(prefix: string, shop: Uuid, year: nat, id: Uuid)
    ensures ObjectKey(prefix, shop, year, id).Some? ==> Names(ObjectKey(prefix, shop, year, id).value, id)
  {
    var head := StripSlashes(Text.Strip(prefix)) + "/" + shop + "/invoices/" + Text.Digits(year) + "/";
    assert (head + (id + ".pdf"))[|head|..] == id + ".pdf";
    assert head + id + ".pdf" == head + (id + ".pdf");
  }

  /** Different sales never share a key, whatever the prefix, shop and year. */
  lemma KeysDiffer(key: string, a: Uuid, b: Uuid)
    requires Names(key, a) && Names(key, b)
    ensures a == b
  {
    assert a == (a + ".pdf")[..36] && b == (b + ".pdf")[..36];
  }

  /** The keys built for two different sales differ, whatever their prefixes, shops and years. */
  lemma ObjectKeysDiffer(prefixA: string, shopA: Uuid, yearA: nat, a: Uuid, prefixB: string, shopB: Uuid, yearB: nat, b: Uuid)
    requires a != b && ObjectKey(prefixA, shopA, yearA, a).Some?
    ensures ObjectKey(prefixA, shopA, yearA, a) != ObjectKey(prefixB, shopB, yearB, b)
  {
    ObjectKeyNames(prefixA, shopA, yearA, a);
    ObjectKeyNames(prefixB, shopB, yearB, b);
    if ObjectKey(prefixA, shopA, yearA, a) == ObjectKey(prefixB, shopB, yearB, b) {
      KeysDiffer(ObjectKey(prefixA, shopA, yearA, a).value, a, b);
    }
  }

  datatype Sale = Sale(
    shop: Uuid, year: nat, objectKey: Option<string>, checksum: Option<Digest>, pdfStatus: Status, attempts: nat)

  /** Where a worker is inside persist_invoice_pdf, and how the call ended. */
  datatype Phase =
    | Claimed
    | Rendered(key: string, pdf: Bytes)
    | Conflicted(key: string, pdf: Bytes)
    | Uploaded(key: string, checksum: Digest)
    | Vanished(key: string)
    | Returned(failed: bool)

  datatype Run = Run(sale: Uuid, token: nat, phase: Phase)

  /**
   * What the network makes of one call: answered, applied but never answered, not applied at all, or
   * applied and then sent once more by the client library.
   */
  datatype Network = Acknowledged | LostAfter | LostBefore | Repeated

  /** The tables and the bucket, updated in place by the steps of a publication. */
  class Store {
    const maxAttempts: nat
    var sales: map<Uuid, Sale>
    var jobs: map<Uuid, Leases.Job>
    var bucket: map<string, Bytes>

    constructor (maxAttempts: nat)
      ensures this.maxAttempts == maxAttempts && sales == map[] && jobs == map[] && bucket == map[]
    {
      this.maxAttempts, sales, jobs, bucket := maxAttempts, map[], map[], map[];
    }

    /** The first transaction: nothing to do for a missing sale or one that has its key. */
    method Read(id: Uuid, prefix: string, pdf: Bytes) returns (phase: Phase)
      ensures phase == ReadPhase(sales, id, prefix, pdf)
      ensures id !in sales || sales[id].objectKey.Some? ==> phase == Returned(false)
      ensures id in sales && sales[id].objectKey.None? ==>
        var key := ObjectKey(prefix, sales[id].shop, sales[id].year, id);
        phase == if key.Some? then Rendered(key.value, pdf) else Returned(true)
    {
      if id !in sales || sales[id].objectKey.Some? {
        return Returned(false);
      }
      var key := ObjectKey(prefix, sales[id].shop, sales[id].year, id);
      if key.None? {
        return Returned(true);
      }
      phase := Rendered(key.value, pdf);
    }

    /** The put of upload_pdf: it never replaces an object, and a refusal is looked into by a second call. */
    method Upload(key: string, pdf: Bytes, network: Network) returns (phase: Phase)
      modifies this`bucket
      ensures bucket == PutObject(old(bucket), key, pdf, network)
      ensures phase == UploadPhase(old(bucket), key, pdf, network)
      ensures bucket == old(bucket) || (key !in old(bucket) && bucket == old(bucket)[key := pdf])
      ensures network == Acknowledged ==> key in bucket && (key !in old(bucket) ==> bucket[key] == pdf)
      ensures network == Acknowledged ==> phase == if key in old(bucket) then Conflicted(key, pdf) else Uploaded(key, Sha256(pdf))
    {
      if network == LostBefore {
        return Returned(true);
      }
      var refused := key in bucket;
      if !refused {
        bucket := bucket[key := pdf];
      }
      if network == Repeated {
        refused := key in bucket;
      }
      if network == LostAfter {
        return Returned(true);
      }
      phase := if refused then Conflicted(key, pdf) else Uploaded(key, Sha256(pdf));
    }

    /** The head of upload_pdf after a refused put: the object there must have the new checksum. */
    method Compare(key: string, pdf: Bytes, network: Network) returns (phase: Phase)
      ensures phase == ComparePhase(bucket, key, pdf, network)
      ensures network == Acknowledged && key in bucket ==>
        phase == if bucket[key] == pdf then Uploaded(key, Sha256(pdf)) else Returned(true)
    {
      if network.LostBefore? || network.LostAfter? || key !in bucket {
        return Returned(true);
      }
      if Sha256(bucket[key]) != Sha256(pdf) {
        return Returned(true);
      }
      phase := Uploaded(key, Sha256(pdf));
    }

    /** The second transaction: the first writer sets the key; a vanished sale leaves its upload to be deleted. */
    method Write(id: Uuid, key: string, checksum: Digest) returns (phase: Phase)
      modifies this`sales
      ensures sales == WriteSales(old(sales), id, key, checksum)
      ensures phase == if id in old(sales) then Returned(false) else Vanished(key)
      ensures id !in old(sales) || old(sales)[id].objectKey.Some? ==> sales == old(sales)
      ensures id in old(sales) && old(sales)[id].objectKey.None? ==>
        var sale := old(sales)[id];
        sales == old(sales)[id := Sale(sale.shop, sale.year, Some(key), Some(checksum), Ready, sale.attempts)]
    {
      if id !in sales {
        return Vanished(key);
      }
      phase := Returned(false);
      if sales[id].objectKey.None? {
        var sale := sales[id];
        sale := sale.(objectKey := Some(key));
        sale := sale.(checksum := Some(checksum));
        sale := sale.(pdfStatus := Ready);
        sales := sales[id := sale];
      }
    }

    /** delete_pdf, after the transaction that found the sale gone. */
    method Delete(key: string, network: Network) returns (phase: Phase)
      modifies this`bucket
      ensures bucket == DeleteObject(old(bucket), key, network)
      ensures phase == DeletePhase(network)
      ensures network == Acknowledged ==> bucket == old(bucket) - {key} && phase == Returned(false)
    {
      if network == LostBefore {
        return Returned(true);
      }
      bucket := bucket - {key};
      phase := Returned(network == LostAfter);
    }

    /** _finish_invoice_job: settle the job if its token is still ours, and mirror a failure on the sale. */
    method Finish(id: Uuid, token: nat, now: int, failed: bool)
      modifies this`jobs, this`sales
      ensures jobs == FinishJobs(old(jobs), id, token, now, failed, maxAttempts)
      ensures sales == FinishSales(old(sales), old(jobs), id, token, now, failed, maxAttempts)
      ensures id !in old(jobs) || old(jobs)[id].token != Some(token) ==> jobs == old(jobs) && sales == old(sales)
      ensures !failed ==> sales == old(sales)
      ensures id in old(jobs) && old(jobs)[id].token == Some(token) ==>
        && id in jobs && jobs == old(jobs)[id := jobs[id]]
        && Leases.IsOutcome(Leases.InvoiceJobs, maxAttempts, old(jobs)[id], jobs[id], now, if failed then Leases.Error else Leases.Success)
      ensures failed && id in old(sales) && id in old(jobs) && old(jobs)[id].token == Some(token) ==>
        && jobs[id].attempts == old(jobs)[id].attempts + 1
        && sales == old(sales)[id := old(sales)[id].(
             pdfStatus := if jobs[id].attempts >= maxAttempts then Failed else Pending, attempts := jobs[id].attempts)]
    {
      if id !in jobs || jobs[id].token != Some(token) {
        return;
      }
      var outcome := if failed then Leases.Error else Leases.Success;
      var job := Leases.Settled(Leases.InvoiceJobs, maxAttempts, jobs[id], now, outcome);
      jobs := jobs[id := job];
      if failed && id in sales {
        var sale := sales[id];
        sale := sale.(pdfStatus := if job.status == Failed then Failed else Pending);
        sale := sale.(attempts := job.attempts);
        sales := sales[id := sale];
      }
    }

    /** Asking for an invoice that has none: create its job, or restart a failed one. */
    method RequestInvoice(id: Uuid)
      modifies this`jobs, this`sales
      ensures jobs == RequestJobs(old(sales), old(jobs), id)
      ensures sales == RequestSales(old(sales), old(jobs), id)
      ensures id !in old(sales) || old(sales)[id].objectKey.Some? ==> jobs == old(jobs) && sales == old(sales)
      ensures id in old(sales) && old(sales)[id].objectKey.None? ==>
        && id in jobs && jobs[id].status != Failed
        && jobs == (if id !in old(jobs) then old(jobs)[id := Leases.Job(Pending, 0, None, None, None)]
                    else if old(jobs)[id].status == Failed
                    then old(jobs)[id := old(jobs)[id].(status := Pending, attempts := 0, nextAttempt := None)]
                    else old(jobs))
        && sales == (if id in old(jobs) && old(jobs)[id].status == Failed
                     then old(sales)[id := old(sales)[id].(pdfStatus := Pending, attempts := 0)] else old(sales))
    {
      if id !in sales || sales[id].objectKey.Some? {
        return;
      }
      if id !in jobs {
        jobs := jobs[id := Leases.NewJob];
      } else if jobs[id].status == Failed {
        jobs := jobs[id := jobs[id].(status := Pending, attempts := 0, nextAttempt := None)];
        sales := sales[id := sales[id].(pdfStatus := Pending, attempts := 0)];
      }
    }
  }

  function ReadPhase(sales: map<Uuid, Sale>, id: Uuid, prefix: string, pdf: Bytes): Phase {
    if id !in sales || sales[id].objectKey.Some? then Returned(false)
    else match ObjectKey(prefix, sales[id].shop, sales[id].year, id)
      case None => Returned(true)
      case Some(key) => Rendered(key, pdf)
  }

  function PutObject(bucket: map<string, Bytes>, key: string, pdf: Bytes, network: Network): map<string, Bytes> {
    if network == LostBefore || key in bucket then bucket else bucket[key := pdf]
  }

  function UploadPhase(bucket: map<string, Bytes>, key: string, pdf: Bytes, network: Network): Phase {
    if network == LostBefore || network == LostAfter then Returned(true)
    else if key in bucket || network == Repeated then Conflicted(key, pdf)
    else Uploaded(key, Sha256(pdf))
  }

  function ComparePhase(bucket: map<string, Bytes>, key: string, pdf: Bytes, network: Network): Phase {
    if network != LostBefore && network != LostAfter && key in bucket && Sha256(bucket[key]) == Sha256(pdf)
    then Uploaded(key, Sha256(pdf)) else Returned(true)
  }

  function DeleteObject(bucket: map<string, Bytes>, key: string, network: Network): map<string, Bytes> {
    if network == LostBefore then bucket else bucket - {key}
  }

  function DeletePhase(network: Network): Phase {
    Returned(network == LostBefore || network == LostAfter)
  }

  function WriteSales(sales: map<Uuid, Sale>, id: Uuid, key: string, checksum: Digest): map<Uuid, Sale> {
    if id in sales && sales[id].objectKey.None?
    then sales[id := sales[id].(objectKey := Some(key), checksum := Some(checksum), pdfStatus := Ready)]
    else sales
  }

  function FinishedJob(job: Leases.Job, now: int, failed: bool, max: nat): Leases.Job {
    Leases.Settled(Leases.InvoiceJobs, max, job, now, if failed then Leases.Error else Leases.Success)
  }

  function FinishJobs(jobs: map<Uuid, Leases.Job>, id: Uuid, token: nat, now: int, failed: bool, max: nat)
    : map<Uuid, Leases.Job>
  {
    if id in jobs && jobs[id].token == Some(token) then jobs[id := FinishedJob(jobs[id], now, failed, max)] else jobs
  }

  function FinishSales(sales: map<Uuid, Sale>, jobs: map<Uuid, Leases.Job>, id: Uuid, token: nat, now: int, failed: bool, max: nat)
    : map<Uuid, Sale>
  {
    if id in jobs && jobs[id].token == Some(token) && failed && id in sales then
      var job := FinishedJob(jobs[id], now, failed, max);
      sales[id := sales[id].(pdfStatus := if job.status == Failed then Failed else Pending, attempts := job.attempts)]
    else sales
  }

  function RequestJobs(sales: map<Uuid, Sale>, jobs: map<Uuid, Leases.Job>, id: Uuid): map<Uuid, Leases.Job> {
    if id !in sales || sales[id].objectKey.Some? then jobs
    else if id !in jobs then jobs[id := Leases.NewJob]
    else if jobs[id].status == Failed then jobs[id := Leases.Restarted(jobs[id])]
    else jobs
  }

  function RequestSales(sales: map<Uuid, Sale>, jobs: map<Uuid, Leases.Job>, id: Uuid): map<Uuid, Sale> {
    if id in sales && sales[id].objectKey.None? && id in jobs && jobs[id].status == Failed
    then sales[id := sales[id].(pdfStatus := Pending, attempts := 0)] else sales
  }

  // ---- every interleaving ----

  /** runs holds the workers' memory, born every sale id ever used. */
  datatype World = World(
    max: nat, now: int, sales: map<Uuid, Sale>, jobs: map<Uuid, Leases.Job>, bucket: map<string, Bytes>,
    runs: map<nat, Run>, born: set<Uuid>)

  datatype Step =
    | Tick(elapsed: nat)
    | Sell(id: Uuid, shop: Uuid, year: nat)
    | Remove(id: Uuid)
    | Claim(worker: nat, id: Uuid, token: nat)
    | Read(worker: nat, prefix: string, pdf: Bytes)
    | Upload(worker: nat, network: Network)
    | Compare(worker: nat, network: Network)
    | Write(worker: nat)
    | Delete(worker: nat, network: Network)
    | Break(worker: nat)
    | Finish(worker: nat)
    | Crash(worker: nat)
    | Request(id: Uuid)

  predicate InPhase(w: World, worker: nat, step: Step) {
    worker in w.runs && match step
      case Read(_, _, _) => w.runs[worker].phase.Claimed?
      case Upload(_, _) => w.runs[worker].phase.Rendered?
      case Compare(_, _) => w.runs[worker].phase.Conflicted?
      case Write(_) => w.runs[worker].phase.Uploaded?
      case Delete(_, _) => w.runs[worker].phase.Vanished?
      case Finish(_) => w.runs[worker].phase.Returned?
      case Break(_) => !w.runs[worker].phase.Returned?
      case _ => true
  }

  predicate Enabled(w: World, step: Step) {
    match step
    case Tick(_) => true
    case Sell(id, _, _) => id !in w.born
    case Remove(id) => id in w.sales
    case Claim(worker, id, _) => worker !in w.runs && id in w.jobs && Leases.Claimable(Leases.InvoiceJobs, w.jobs[id], w.now)
    case Request(_) => true
    case _ => InPhase(w, step.worker, step)
  }

  function Moved(w: World, worker: nat, phase: Phase): World
    requires worker in w.runs
  {
    w.(runs := w.runs[worker := w.runs[worker].(phase := phase)])
  }

  function Apply(w: World, step: Step): World
    requires Enabled(w, step)
  {
    match step
    case Tick(elapsed) => w.(now := w.now + elapsed)
    case Sell(id, shop, year) =>
      w.(sales := w.sales[id := Sale(shop, year, None, None, Pending, 0)], jobs := w.jobs[id := Leases.NewJob], born := w.born + {id})
    case Remove(id) => w.(sales := w.sales - {id}, jobs := w.jobs - {id})
    case Claim(worker, id, token) =>
      w.(jobs := w.jobs[id := Leases.Claimed(Leases.InvoiceJobs, w.jobs[id], w.now, token)],
         runs := w.runs[worker := Run(id, token, Claimed)])
    case Read(worker, prefix, pdf) => Moved(w, worker, ReadPhase(w.sales, w.runs[worker].sale, prefix, pdf))
    case Upload(worker, network) =>
      var phase := w.runs[worker].phase;
      Moved(w, worker, UploadPhase(w.bucket, phase.key, phase.pdf, network))
        .(bucket := PutObject(w.bucket, phase.key, phase.pdf, network))
    case Compare(worker, network) =>
      var phase := w.runs[worker].phase;
      Moved(w, worker, ComparePhase(w.bucket, phase.key, phase.pdf, network))
    case Write(worker) =>
      var run := w.runs[worker];
      Moved(w, worker, if run.sale in w.sales then Returned(false) else Vanished(run.phase.key))
        .(sales := WriteSales(w.sales, run.sale, run.phase.key, run.phase.checksum))
    case Delete(worker, network) =>
      Moved(w, worker, DeletePhase(network)).(bucket := DeleteObject(w.bucket, w.runs[worker].phase.key, network))
    case Break(worker) => Moved(w, worker, Returned(true))
    case Finish(worker) =>
      var run := w.runs[worker];
      w.(jobs := FinishJobs(w.jobs, run.sale, run.token, w.now, run.phase.failed, w.max),
         sales := FinishSales(w.sales, w.jobs, run.sale, run.token, w.now, run.phase.failed, w.max),
         runs := w.runs - {worker})
    case Crash(worker) => w.(runs := w.runs - {worker})
    case Request(id) => w.(jobs := RequestJobs(w.sales, w.jobs, id), sales := RequestSales(w.sales, w.jobs, id))
  }

  predicate Legal(w: World, steps: seq<Step>)
    decreases |steps|
  {
    steps == [] || (Enabled(w, steps[0]) && Legal(Apply(w, steps[0]), steps[1..]))
  }

  function Execute(w: World, steps: seq<Step>): World
    requires Legal(w, steps)
    decreases |steps|
  {
    if steps == [] then w else Execute(Apply(w, steps[0]), steps[1..])
  }

  function Start(max: nat): World {
    World(max, 0, map[], map[], map[], map[], {})
  }

  /** A sale with a key has, under that key, an object whose hash is the recorded checksum. */
  predicate Published(sales: map<Uuid, Sale>, bucket: map<string, Bytes>) {
    forall id :: id in sales && sales[id].objectKey.Some? ==>
      && sales[id].objectKey.value in bucket
      && sales[id].checksum == Some(Sha256(bucket[sales[id].objectKey.value]))
      && Names(sales[id].objectKey.value, id)
  }

  predicate ReadyHasKey(sales: map<Uuid, Sale>) {
    forall id :: id in sales && sales[id].pdfStatus == Ready ==> sales[id].objectKey.Some?
  }

  /** Gone for good, or holding its key. */
  predicate Done(w: World, id: Uuid) {
    id in w.born && (id in w.sales ==> w.sales[id].objectKey.Some?)
  }

  predicate RunInv(w: World, run: Run) {
    && run.sale in w.born
    && match run.phase
       case Claimed => true
       case Rendered(key, _) => Names(key, run.sale)
       case Conflicted(key, _) => Names(key, run.sale)
       case Uploaded(key, checksum) =>
         Names(key, run.sale) && (run.sale in w.sales ==> key in w.bucket && Sha256(w.bucket[key]) == checksum)
       case Vanished(key) => Names(key, run.sale) && run.sale !in w.sales
       case Returned(failed) => !failed ==> Done(w, run.sale)
  }

  predicate Inv(w: World) {
    && w.sales.Keys <= w.born && w.jobs.Keys <= w.born
    && Published(w.sales, w.bucket)
    && ReadyHasKey(w.sales)
    && (forall worker :: worker in w.runs ==> RunInv(w, w.runs[worker]))
    && (forall id :: id in w.jobs && w.jobs[id].status == Ready ==> Done(w, id))
  }

  /** What a step may do to the rest: sales and their keys stay, live objects stay, ids are not reused. */
  predicate Extends(w: World, v: World) {
    && w.born <= v.born
    && (forall id :: id in v.sales && id in w.born ==> id in w.sales)
    && (forall id :: id in w.sales && id in v.sales && w.sales[id].objectKey.Some? ==>
          v.sales[id].objectKey == w.sales[id].objectKey && v.sales[id].checksum == w.sales[id].checksum)
    && (forall key, id :: key in w.bucket && Names(key, id) && id in v.sales && id in w.sales ==>
          key in v.bucket && v.bucket[key] == w.bucket[key])
  }

  /** Deleting the upload of a vanished sale touches no object of a sale that is there. */
  lemma DeleteExtends(w: World, worker: nat, network: Network)
    requires Inv(w) && Enabled(w, Delete(worker, network))
    ensures Extends(w, Apply(w, Delete(worker, network)))
  {
    var run := w.runs[worker];
    var v := Apply(w, Delete(worker, network));
    forall key, id | key in w.bucket && Names(key, id) && id in v.sales && id in w.sales
      ensures key in v.bucket && v.bucket[key] == w.bucket[key]
    {
      if key == run.phase.key {
        KeysDiffer(key, id, run.sale);
      }
    }
  }

  lemma StepExtends(w: World, step: Step)
    requires Inv(w) && Enabled(w, step)
    ensures Extends(w, Apply(w, step))
  {
    if step.Delete? {
      DeleteExtends(w, step.worker, step.network);
    }
  }

  /** A run that does not move keeps its part of the invariant. */
  lemma RunKept(w: World, v: World, run: Run)
    requires Extends(w, v) && RunInv(w, run)
    ensures RunInv(v, run)
  {
  }

  lemma UploadKeepsInv(w: World, worker: nat, network: Network)
    requires Inv(w) && Enabled(w, Upload(worker, network))
    ensures Inv(Apply(w, Upload(worker, network)))
  {
    var v := Apply(w, Upload(worker, network));
    StepExtends(w, Upload(worker, network));
    forall other | other in v.runs ensures RunInv(v, v.runs[other]) {
      if other != worker { RunKept(w, v, w.runs[other]); }
    }
  }

  /** If the refused put met an object of the right checksum, that object is the sale's upload. */
  lemma CompareKeepsInv(w: World, worker: nat, network: Network)
    requires Inv(w) && Enabled(w, Compare(worker, network))
    ensures Inv(Apply(w, Compare(worker, network)))
  {
    var v := Apply(w, Compare(worker, network));
    StepExtends(w, Compare(worker, network));
    forall other | other in v.runs ensures RunInv(v, v.runs[other]) {
      if other != worker { RunKept(w, v, w.runs[other]); }
    }
  }

  lemma WriteKeepsInv(w: World, worker: nat)
    requires Inv(w) && Enabled(w, Write(worker))
    ensures Inv(Apply(w, Write(worker)))
  {
    var v := Apply(w, Write(worker));
    StepExtends(w, Write(worker));
    forall other | other in v.runs ensures RunInv(v, v.runs[other]) {
      if other != worker { RunKept(w, v, w.runs[other]); }
    }
    assert Published(v.sales, v.bucket);
  }

  lemma DeleteKeepsInv(w: World, worker: nat, network: Network)
    requires Inv(w) && Enabled(w, Delete(worker, network))
    ensures Inv(Apply(w, Delete(worker, network)))
  {
    var v := Apply(w, Delete(worker, network));
    DeleteExtends(w, worker, network);
    forall other | other in v.runs ensures RunInv(v, v.runs[other]) {
      if other != worker { RunKept(w, v, w.runs[other]); }
    }
    assert Published(v.sales, v.bucket);
  }

  lemma FinishKeepsRuns(w: World, worker: nat)
    requires Inv(w) && Enabled(w, Finish(worker))
    ensures var v := Apply(w, Finish(worker)); forall other :: other in v.runs ==> RunInv(v, v.runs[other])
  {
    var v := Apply(w, Finish(worker));
    StepExtends(w, Finish(worker));
    forall other | other in v.runs ensures RunInv(v, v.runs[other]) {
      RunKept(w, v, w.runs[other]);
    }
  }

  lemma FinishKeepsTables(w: World, worker: nat)
    requires Inv(w) && Enabled(w, Finish(worker))
    ensures var v := Apply(w, Finish(worker));
      && v.sales.Keys <= v.born && v.jobs.Keys <= v.born && Published(v.sales, v.bucket) && ReadyHasKey(v.sales)
      && forall id :: id in v.jobs && v.jobs[id].status == Ready ==> Done(v, id)
  {
  }

  lemma FinishKeepsInv(w: World, worker: nat)
    requires Inv(w) && Enabled(w, Finish(worker))
    ensures Inv(Apply(w, Finish(worker)))
  {
    FinishKeepsRuns(w, worker);
    FinishKeepsTables(w, worker);
  }

  lemma ReadKeepsInv(w: World, worker: nat, prefix: string, pdf: Bytes)
    requires Inv(w) && Enabled(w, Step.Read(worker, prefix, pdf))
    ensures Inv(Apply(w, Step.Read(worker, prefix, pdf)))
  {
    var v := Apply(w, Step.Read(worker, prefix, pdf));
    var id := w.runs[worker].sale;
    if id in w.sales { ObjectKeyNames(prefix, w.sales[id].shop, w.sales[id].year, id); }
    StepExtends(w, Step.Read(worker, prefix, pdf));
    forall other | other in v.runs ensures RunInv(v, v.runs[other]) {
      if other != worker { RunKept(w, v, w.runs[other]); }
    }
  }

  /** The steps of no worker inside the publication, and those that end one. */
  predicate IsPlainStep(step: Step) {
    step.Tick? || step.Sell? || step.Remove? || step.Claim? || step.Break? || step.Crash? || step.Request?
  }

  lemma PlainStepKeepsRuns(w: World, step: Step)
    requires Inv(w) && Enabled(w, step) && IsPlainStep(step)
    ensures var v := Apply(w, step); forall worker :: worker in v.runs ==> RunInv(v, v.runs[worker])
  {
    var v := Apply(w, step);
    StepExtends(w, step);
    forall other | other in v.runs ensures RunInv(v, v.runs[other]) {
      if other in w.runs && w.runs[other] == v.runs[other] { RunKept(w, v, w.runs[other]); }
    }
  }

  lemma PlainStepKeepsTables(w: World, step: Step)
    requires Inv(w) && Enabled(w, step) && IsPlainStep(step)
    ensures var v := Apply(w, step);
      && v.sales.Keys <= v.born && v.jobs.Keys <= v.born && Published(v.sales, v.bucket) && ReadyHasKey(v.sales)
      && forall id :: id in v.jobs && v.jobs[id].status == Ready ==> Done(v, id)
  {
  }

  lemma PlainStepKeepsInv(w: World, step: Step)
    requires Inv(w) && Enabled(w, step) && IsPlainStep(step)
    ensures Inv(Apply(w, step))
  {
    PlainStepKeepsRuns(w, step);
    PlainStepKeepsTables(w, step);
  }

  lemma StepKeepsInv(w: World, step: Step)
    requires Inv(w) && Enabled(w, step)
    ensures Inv(Apply(w, step))
  {
    match step
    case Read(worker, prefix, pdf) => ReadKeepsInv(w, worker, prefix, pdf);
    case Upload(worker, network) => UploadKeepsInv(w, worker, network);
    case Compare(worker, network) => CompareKeepsInv(w, worker, network);
    case Write(worker) => WriteKeepsInv(w, worker);
    case Delete(worker, network) => DeleteKeepsInv(w, worker, network);
    case Finish(worker) => FinishKeepsInv(w, worker);
    case _ => PlainStepKeepsInv(w, step);
  }

  lemma {:induction false} RunKeepsInv(w: World, steps: seq<Step>)
    requires Inv(w) && Legal(w, steps)
    ensures Inv(Execute(w, steps))
    decreases |steps|
  {
    if steps != [] {
      StepKeepsInv(w, steps[0]);
      RunKeepsInv(Apply(w, steps[0]), steps[1..]);
    }
  }

  /**
   * In every reachable state, however the workers interleave: published keys name objects with the
   * recorded hash, no two sales share a key, ready implies a key, and a ready job means a sale with
   * its key or no sale at all.
   */
  lemma PublicationIsSafe(max: nat, steps: seq<Step>)
    requires Legal(Start(max), steps)
    ensures var w := Execute(Start(max), steps);
      && Published(w.sales, w.bucket) && ReadyHasKey(w.sales)
      && (forall a, b :: a in w.sales && b in w.sales && a != b && w.sales[a].objectKey.Some? ==>
            w.sales[a].objectKey != w.sales[b].objectKey)
      && (forall id :: id in w.jobs && w.jobs[id].status == Ready && id in w.sales ==> w.sales[id].objectKey.Some?)
  {
    RunKeepsInv(Start(max), steps);
    var w := Execute(Start(max), steps);
    forall a, b | a in w.sales && b in w.sales && a != b && w.sales[a].objectKey.Some?
      ensures w.sales[a].objectKey != w.sales[b].objectKey
    {
      if w.sales[a].objectKey == w.sales[b].objectKey {
        KeysDiffer(w.sales[a].objectKey.value, a, b);
      }
    }
  }

  /** Once set, a key and its checksum never change while the sale exists, and the object stays put. */
  lemma {:induction false} KeyNeverChanges(w: World, steps: seq<Step>, id: Uuid)
    requires Inv(w) && Legal(w, steps) && id in w.sales && w.sales[id].objectKey.Some?
    ensures var v := Execute(w, steps);
      id in v.sales ==>
        && v.sales[id].objectKey == w.sales[id].objectKey && v.sales[id].checksum == w.sales[id].checksum
        && v.sales[id].objectKey.value in v.bucket
        && v.bucket[v.sales[id].objectKey.value] == w.bucket[w.sales[id].objectKey.value]
    decreases |steps|
  {
    if steps != [] {
      var v := Apply(w, steps[0]);
      StepExtends(w, steps[0]);
      StepKeepsInv(w, steps[0]);
      if id in v.sales {
        KeyNeverChanges(v, steps[1..], id);
      } else {
        StaysGone(v, steps[1..], id);
      }
    }
  }

  lemma {:induction false} StaysGone(w: World, steps: seq<Step>, id: Uuid)
    requires Inv(w) && Legal(w, steps) && id in w.born && id !in w.sales
    ensures id !in Execute(w, steps).sales
    decreases |steps|
  {
    if steps != [] {
      StepExtends(w, steps[0]);
      StepKeepsInv(w, steps[0]);
      StaysGone(Apply(w, steps[0]), steps[1..], id);
    }
  }

  // ---- a key makes its sale ready, until a late failure ----

  /** The second transaction publishes a sale that has no key yet, and touches no other sale, job or object. */
  lemma WritePublishes(w: World, worker: nat)
    requires Enabled(w, Write(worker))
    ensures var run, v := w.runs[worker], Apply(w, Write(worker));
      && v == w.(sales := v.sales, runs := v.runs) && v.sales.Keys == w.sales.Keys
      && (run.sale in w.sales && w.sales[run.sale].objectKey.None? ==>
            var sale := w.sales[run.sale];
            v.sales[run.sale] == Sale(sale.shop, sale.year, Some(run.phase.key), Some(run.phase.checksum), Ready, sale.attempts))
      && (forall id :: id in w.sales && (id != run.sale || w.sales[id].objectKey.Some?) ==> v.sales[id] == w.sales[id])
      && v.runs == w.runs[worker := Run(run.sale, run.token, if run.sale in w.sales then Returned(false) else Vanished(run.phase.key))]
  {
  }

  /** Whatever the step: a sale that gains a key is ready, with the checksum of the object under the key. */
  lemma KeyMakesReady(w: World, step: Step, id: Uuid)
    requires Inv(w) && Enabled(w, step) && id in w.sales && w.sales[id].objectKey.None?
    requires id in Apply(w, step).sales && Apply(w, step).sales[id].objectKey.Some?
    ensures var v := Apply(w, step);
      && v.sales[id].pdfStatus == Ready && v.sales[id].objectKey.value in v.bucket
      && v.sales[id].checksum == Some(Sha256(v.bucket[v.sales[id].objectKey.value]))
  {
    StepKeepsInv(w, step);
  }

  /** The failure of a worker that still holds the job's token, reported on the sale. */
  predicate Demotes(w: World, step: Step, id: Uuid) {
    && step.Finish? && step.worker in w.runs
    && var run := w.runs[step.worker];
    && run.sale == id && run.phase == Returned(true) && id in w.jobs && w.jobs[id].token == Some(run.token)
  }

  predicate NeverDemoted(w: World, steps: seq<Step>, id: Uuid)
    requires Legal(w, steps)
    decreases |steps|
  {
    steps == [] || (!Demotes(w, steps[0], id) && NeverDemoted(Apply(w, steps[0]), steps[1..], id))
  }

  /** A published sale loses its readiness to a demotion and to nothing else, and no step gives it back. */
  lemma StepOnPublished(w: World, step: Step, id: Uuid)
    requires Inv(w) && Enabled(w, step) && id in w.sales && w.sales[id].objectKey.Some?
    ensures id in Apply(w, step).sales ==>
      && Apply(w, step).sales[id].objectKey.Some?
      && (Apply(w, step).sales[id].pdfStatus == Ready <==> w.sales[id].pdfStatus == Ready && !Demotes(w, step, id))
  {
    if step.Write? { WritePublishes(w, step.worker); }
  }

  /**
   * A published sale is ready after a run if and only if it was ready and no worker that failed on it has finished
   * while holding the job's token; once lost, the readiness never comes back.
   */
  lemma {:induction false} ReadyExactly(w: World, steps: seq<Step>, id: Uuid)
    requires Inv(w) && Legal(w, steps) && id in w.sales && w.sales[id].objectKey.Some?
    ensures id in Execute(w, steps).sales ==>
      (Execute(w, steps).sales[id].pdfStatus == Ready <==> w.sales[id].pdfStatus == Ready && NeverDemoted(w, steps, id))
    decreases |steps|
  {
    if steps != [] {
      var v := Apply(w, steps[0]);
      StepKeepsInv(w, steps[0]);
      StepExtends(w, steps[0]);
      StepOnPublished(w, steps[0], id);
      if id in v.sales { ReadyExactly(v, steps[1..], id); } else { StaysGone(v, steps[1..], id); }
    }
  }

  lemma {:induction false} RunConcat(w: World, a: seq<Step>, b: seq<Step>)
    requires Legal(w, a) && Legal(Execute(w, a), b)
    ensures Legal(w, a + b) && Execute(w, a + b) == Execute(Execute(w, a), b)
    decreases |a|
  {
    if a == [] {
      assert a + b == b;
    } else {
      assert (a + b)[1..] == a[1..] + b;
      RunConcat(Apply(w, a[0]), a[1..], b);
    }
  }

  lemma TwoSteps(w: World, a: Step, b: Step)
    requires Enabled(w, a) && Enabled(Apply(w, a), b)
    ensures Legal(w, [a, b]) && Execute(w, [a, b]) == Apply(Apply(w, a), b)
  {
    var v := Apply(w, a);
    assert [a, b][1..] == [b] && [b][1..] == [];
    assert Legal(Apply(v, b), []) && Legal(v, [b]) && Execute(v, [b]) == Apply(v, b);
  }

  function Sold(shop: Uuid, year: nat): Sale { Sale(shop, year, None, None, Pending, 0) }

  /** A worker has rendered a new sale. */
  function Rendering(max: nat, shop: Uuid, year: nat, id: Uuid, key: string, early: Bytes): World {
    World(max, 0, map[id := Sold(shop, year)], map[id := Leases.Job(Processing, 0, None, Some(600), Some(11))], map[],
          map[1 := Run(id, 11, Rendered(key, early))], {id})
  }

  /** It has uploaded, its lease has run out, and a second worker has rendered the same sale anew. */
  function Overtaken(max: nat, shop: Uuid, year: nat, id: Uuid, key: string, early: Bytes, late: Bytes): World {
    World(max, 601, map[id := Sold(shop, year)], map[id := Leases.Job(Processing, 0, None, Some(1201), Some(12))],
          map[key := early], map[1 := Run(id, 11, Uploaded(key, Sha256(early))), 2 := Run(id, 12, Rendered(key, late))], {id})
  }

  lemma FirstRenders(max: nat, prefix: string, shop: Uuid, year: nat, id: Uuid, early: Bytes)
    requires ObjectKey(prefix, shop, year, id).Some?
    ensures var steps := [Sell(id, shop, year), Claim(1, id, 11)] + [Step.Read(1, prefix, early)];
      Legal(Start(max), steps)
      && Execute(Start(max), steps) == Rendering(max, shop, year, id, ObjectKey(prefix, shop, year, id).value, early)
  {
    TwoSteps(Start(max), Sell(id, shop, year), Claim(1, id, 11));
    var w := Execute(Start(max), [Sell(id, shop, year), Claim(1, id, 11)]);
    assert Legal(w, [Step.Read(1, prefix, early)]) by { assert [Step.Read(1, prefix, early)][1..] == []; }
    RunConcat(Start(max), [Sell(id, shop, year), Claim(1, id, 11)], [Step.Read(1, prefix, early)]);
  }

  /** The first worker has uploaded, and its lease has run out. */
  function Uploading(max: nat, shop: Uuid, year: nat, id: Uuid, key: string, early: Bytes): World {
    World(max, 601, map[id := Sold(shop, year)], map[id := Leases.Job(Processing, 0, None, Some(600), Some(11))], map[key := early],
          map[1 := Run(id, 11, Uploaded(key, Sha256(early)))], {id})
  }

  lemma FirstUploads(max: nat, shop: Uuid, year: nat, id: Uuid, key: string, early: Bytes)
    ensures var w, steps := Rendering(max, shop, year, id, key, early), [Upload(1, Acknowledged), Tick(601)];
      Legal(w, steps) && Execute(w, steps) == Uploading(max, shop, year, id, key, early)
  {
    TwoSteps(Rendering(max, shop, year, id, key, early), Upload(1, Acknowledged), Tick(601));
  }

  lemma SecondClaims(max: nat, prefix: string, shop: Uuid, year: nat, id: Uuid, early: Bytes, late: Bytes)
    requires ObjectKey(prefix, shop, year, id).Some?
    ensures var key := ObjectKey(prefix, shop, year, id).value;
      var w, steps := Uploading(max, shop, year, id, key, early), [Claim(2, id, 12), Step.Read(2, prefix, late)];
      Legal(w, steps) && Execute(w, steps) == Overtaken(max, shop, year, id, key, early, late)
  {
    TwoSteps(Uploading(max, shop, year, id, ObjectKey(prefix, shop, year, id).value, early), Claim(2, id, 12), Step.Read(2, prefix, late));
  }

  lemma SecondRenders(max: nat, prefix: string, shop: Uuid, year: nat, id: Uuid, early: Bytes, late: Bytes)
    requires ObjectKey(prefix, shop, year, id).Some?
    ensures var key := ObjectKey(prefix, shop, year, id).value;
      var w, steps := Rendering(max, shop, year, id, key, early), [Upload(1, Acknowledged), Tick(601)] + [Claim(2, id, 12), Step.Read(2, prefix, late)];
      Legal(w, steps) && Execute(w, steps) == Overtaken(max, shop, year, id, key, early, late)
  {
    var w := Rendering(max, shop, year, id, ObjectKey(prefix, shop, year, id).value, early);
    FirstUploads(max, shop, year, id, ObjectKey(prefix, shop, year, id).value, early);
    SecondClaims(max, prefix, shop, year, id, early, late);
    RunConcat(w, [Upload(1, Acknowledged), Tick(601)], [Claim(2, id, 12), Step.Read(2, prefix, late)]);
  }

  /** The first worker has published, and the second has met the file of the first. */
  function Conflicting(max: nat, shop: Uuid, year: nat, id: Uuid, key: string, early: Bytes, late: Bytes): World {
    World(max, 601, map[id := Sale(shop, year, Some(key), Some(Sha256(early)), Ready, 0)],
          map[id := Leases.Job(Processing, 0, None, Some(1201), Some(12))], map[key := early],
          map[1 := Run(id, 11, Returned(false)), 2 := Run(id, 12, Conflicted(key, late))], {id})
  }

  lemma FirstPublishes(max: nat, shop: Uuid, year: nat, id: Uuid, key: string, early: Bytes, late: Bytes)
    ensures var w, steps := Overtaken(max, shop, year, id, key, early, late), [Write(1), Upload(2, Acknowledged)];
      Legal(w, steps) && Execute(w, steps) == Conflicting(max, shop, year, id, key, early, late)
  {
    TwoSteps(Overtaken(max, shop, year, id, key, early, late), Write(1), Upload(2, Acknowledged));
  }

  lemma SecondFails(max: nat, shop: Uuid, year: nat, id: Uuid, key: string, early: Bytes, late: Bytes)
    requires early != late
    ensures var w, steps := Conflicting(max, shop, year, id, key, early, late), [Compare(2, Acknowledged), Finish(2)];
      && Legal(w, steps) && id in Execute(w, steps).sales
      && Execute(w, steps).sales[id].objectKey == Some(key) && Execute(w, steps).sales[id].pdfStatus != Ready
  {
    TwoSteps(Conflicting(max, shop, year, id, key, early, late), Compare(2, Acknowledged), Finish(2));
  }

  /** The first worker publishes; the second meets another file under the key and reports a failure. */
  lemma SecondHides(max: nat, shop: Uuid, year: nat, id: Uuid, key: string, early: Bytes, late: Bytes)
    requires early != late
    ensures var w := Overtaken(max, shop, year, id, key, early, late);
      var steps := [Write(1), Upload(2, Acknowledged)] + [Compare(2, Acknowledged), Finish(2)];
      && Legal(w, steps) && id in Execute(w, steps).sales
      && Execute(w, steps).sales[id].objectKey == Some(key) && Execute(w, steps).sales[id].pdfStatus != Ready
  {
    FirstPublishes(max, shop, year, id, key, early, late);
    SecondFails(max, shop, year, id, key, early, late);
    RunConcat(Overtaken(max, shop, year, id, key, early, late), [Write(1), Upload(2, Acknowledged)], [Compare(2, Acknowledged), Finish(2)]);
  }

  /** The eleven steps of two workers on one sale, the first overtaken by the second. */
  function LateFailure(prefix: string, shop: Uuid, year: nat, id: Uuid, early: Bytes, late: Bytes): seq<Step> {
    [Sell(id, shop, year), Claim(1, id, 11)] + [Step.Read(1, prefix, early)]
    + ([Upload(1, Acknowledged), Tick(601)] + [Claim(2, id, 12), Step.Read(2, prefix, late)])
    + ([Write(1), Upload(2, Acknowledged)] + [Compare(2, Acknowledged), Finish(2)])
  }

  /** A reachable state in which a published sale is not ready. */
  lemma LateFailureHidesInvoice(max: nat, prefix: string, shop: Uuid, year: nat, id: Uuid, early: Bytes, late: Bytes)
    requires ObjectKey(prefix, shop, year, id).Some? && early != late
    ensures var steps := LateFailure(prefix, shop, year, id, early, late);
      && Legal(Start(max), steps)
      && var w := Execute(Start(max), steps);
      && id in w.sales && w.sales[id].objectKey == ObjectKey(prefix, shop, year, id) && w.sales[id].pdfStatus != Ready
  {
    var key, start := ObjectKey(prefix, shop, year, id).value, Start(max);
    var first := [Sell(id, shop, year), Claim(1, id, 11)] + [Step.Read(1, prefix, early)];
    var second := [Upload(1, Acknowledged), Tick(601)] + [Claim(2, id, 12), Step.Read(2, prefix, late)];
    var third := [Write(1), Upload(2, Acknowledged)] + [Compare(2, Acknowledged), Finish(2)];
    FirstRenders(max, prefix, shop, year, id, early);
    SecondRenders(max, prefix, shop, year, id, early, late);
    RunConcat(start, first, second);
    SecondHides(max, shop, year, id, key, early, late);
    RunConcat(start, first + second, third);
  }
}
