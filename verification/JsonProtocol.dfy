/** Several processes sharing one store file: every interleaving of adds, locked saves, failed saves
    and crashes. */
module JsonProtocol {
  import opened Prelude
  import opened JsonStore

  /** Where a process stands in its save: `Resting` has nothing unsaved, `Dirty` waits for the lock,
      `Holding` has merged under it, `Written` has the temporary file ready to be renamed, and `Unsaved`
      went on after a save that failed. */
  datatype Phase = Resting | Dirty | Holding | Written | Unsaved

  datatype Proc = Proc(items: seq<Item>, phase: Phase)

  /** `book` remembers every item ever added, by id, and `crashed` whether any process died. */
  datatype Sys = Sys(
    file: Disk, tmp: seq<Item>, lock: Option<nat>, procs: map<nat, Proc>,
    book: map<string, Item>, crashed: bool)

  datatype Step =
    | Open(p: nat) | Add(p: nat, item: Item) | Acquire(p: nat) | WriteTmp(p: nat) | Replace(p: nat)
    | Fail(p: nat) | Crash(p: nat)

  function Set(s: Sys, p: nat, proc: Proc): Sys {
    s.(procs := s.procs[p := proc])
  }

  function Apply(s: Sys, step: Step, cap: nat): Sys {
    var p := step.p;
    if p !in s.procs then
      if step.Open? then Set(s, p, Proc(Loaded(s.file, cap), Resting)) else s
    else
      var me := s.procs[p];
      match step
      case Open(_) => s
      case Add(_, item) =>
        if me.phase != Resting && me.phase != Unsaved then s
        else Set(s, p, Proc(Cut(me.items + [item], cap), Dirty)).(book := s.book[item.id := item])
      case Acquire(_) =>
        if me.phase != Dirty || s.lock != None then s
        else Set(s, p, Proc(Merged(me.items, s.file, cap), Holding)).(lock := Some(p))
      case WriteTmp(_) =>
        if me.phase != Holding then s else Set(s, p, me.(phase := Written)).(tmp := me.items)
      case Replace(_) =>
        if me.phase != Written then s
        else Set(s, p, me.(phase := Resting)).(file := Rows(AsRows(s.tmp)), lock := None)
      case Fail(_) =>
        if me.phase == Resting || me.phase == Unsaved then s
        else Set(s, p, me.(phase := Unsaved)).(lock := if s.lock == Some(p) then None else s.lock)
      case Crash(_) =>
        s.(procs := s.procs - {p}, lock := if s.lock == Some(p) then None else s.lock, crashed := true)
  }

  const EMPTY := Sys(Missing, [], None, map[], map[], false)

  function Run(steps: seq<Step>, cap: nat): Sys {
    if steps == [] then EMPTY else Apply(Run(steps[..|steps| - 1], cap), steps[|steps| - 1], cap)
  }

  /** Every add brings an id not seen before, and the ids stay within the cap. */
  ghost predicate Orderly(steps: seq<Step>, cap: nat) {
    forall k :: 0 <= k < |steps| && steps[k].Add? ==>
      var book := Run(steps[..k], cap).book;
      steps[k].item.id !in book && |book| < cap
  }

  function OnDisk(s: Sys): seq<Item> {
    match s.file case Rows(rows) => ValidItems(rows) case _ => []
  }

  // ---------- Invariant ----------

  /** Items with distinct ids, each one the item that was added under that id. */
  ghost predicate FromBook(items: seq<Item>, book: map<string, Item>) {
    && UniqueIds(items)
    && forall i :: 0 <= i < |items| ==> items[i].id in book && book[items[i].id] == items[i]
  }

  ghost predicate Within(a: seq<Item>, b: seq<Item>) {
    forall i :: 0 <= i < |a| ==> a[i] in b
  }

  ghost predicate ProcOk(s: Sys, p: nat)
    requires p in s.procs
  {
    var me := s.procs[p];
    && FromBook(me.items, s.book)
    && (me.phase == Resting ==> Within(me.items, OnDisk(s)))
    && ((me.phase == Holding || me.phase == Written) <==> s.lock == Some(p))
    && (me.phase == Holding || me.phase == Written ==> Within(OnDisk(s), me.items))
    && (me.phase == Written ==> s.tmp == me.items)
  }

  /** The item under this id is in the file, or in the cache of a process that has yet to save it. */
  ghost predicate Kept(s: Sys, id: string)
    requires id in s.book
  {
    s.book[id] in OnDisk(s) || exists p :: p in s.procs && s.procs[p].phase != Resting && s.book[id] in s.procs[p].items
  }

  ghost predicate Inv(s: Sys, cap: nat) {
    && |s.book| <= cap
    && (s.file == Missing || s.file == Rows(AsRows(OnDisk(s))))
    && FromBook(OnDisk(s), s.book)
    && (forall p :: p in s.procs ==> ProcOk(s, p))
    && (s.lock.Some? ==> s.lock.value in s.procs)
    && (!s.crashed ==> forall id :: id in s.book ==> Kept(s, id))
  }

  lemma {:induction false} IdsDistinct(items: seq<Item>)
    requires UniqueIds(items)
    ensures |Ids(items)| == |items|
  {
    if items != [] {
      var n := |items| - 1;
      IdsGrow(items);
      IdsDistinct(items[..n]);
      assert items[n].id !in Ids(items[..n]);
    }
  }

  /** Items from the book never exceed the cap, so nothing is ever cut. */
  lemma BookBounds(items: seq<Item>, book: map<string, Item>)
    requires FromBook(items, book)
    ensures |items| <= |book|
  {
    IdsDistinct(items);
    SubsetSize(Ids(items), book.Keys);
  }

  lemma {:induction false} SubsetSize(a: set<string>, b: set<string>)
    requires a <= b
    ensures |a| <= |b|
  {
    if a != {} {
      var x :| x in a;
      SubsetSize(a - {x}, b - {x});
    }
  }

  lemma MergeFromBook(items: seq<Item>, disk: seq<Item>, book: map<string, Item>, cap: nat)
    requires FromBook(items, book) && FromBook(disk, book) && |book| <= cap
    ensures var merged := Merged(items, Rows(AsRows(disk)), cap);
      FromBook(merged, book) && Within(items, merged) && Within(disk, merged)
  {
    var rows := AsRows(disk);
    var extra := DiskOnly(Ids(items), rows);
    var all := items + extra;
    DiskOnlyIds(Ids(items), rows, "");
    forall i | 0 <= i < |extra| ensures extra[i] in disk && extra[i].id !in Ids(items) {
      DiskOnlyMembers(Ids(items), rows, extra[i]);
    }
    forall i, j | 0 <= i < j < |all| ensures all[i].id != all[j].id {
      if i < |items| && |items| <= j {
        assert all[j] == extra[j - |items|];
        assert all[i].id in Ids(items);
      }
    }
    assert FromBook(all, book);
    BookBounds(all, book);
    assert Merged(items, Rows(rows), cap) == all;
    forall i | 0 <= i < |disk| ensures disk[i] in all {
      DiskOnlyMembers(Ids(items), rows, disk[i]);
      if disk[i].id in Ids(items) {
        var k :| 0 <= k < |items| && items[k].id == disk[i].id;
        assert items[k] == disk[i];
        assert all[k] == disk[i];
      } else {
        assert rows[i] == Valid(disk[i]);
        assert FirstOf(rows, disk[i]);
        var m :| 0 <= m < |extra| && extra[m] == disk[i];
        assert all[|items| + m] == disk[i];
      }
    }
    forall i | 0 <= i < |items| ensures items[i] in all {
      assert all[i] == items[i];
    }
  }

  // ---------- Steps ----------

  /** What a step may do to the file: nothing, or replace it by one that holds everything it held. */
  ghost predicate Grows(s: Sys, s': Sys) {
    Within(OnDisk(s), OnDisk(s'))
  }

  lemma SetKeeps(s: Sys, s': Sys, p: nat, cap: nat)
    requires Inv(s, cap) && p in s'.procs
    requires s' == s.(procs := s.procs[p := s'.procs[p]], lock := s'.lock, tmp := s'.tmp)
    requires s'.lock != s.lock ==> (s.lock == None && s'.lock == Some(p)) || (s.lock == Some(p) && s'.lock == None)
    requires s'.tmp != s.tmp ==> s.lock == Some(p)
    requires ProcOk(s', p)
    requires p in s.procs ==>
      Within(s.procs[p].items, s'.procs[p].items) && (s.procs[p].phase != Resting ==> s'.procs[p].phase != Resting)
    ensures Inv(s', cap)
  {
    forall q | q in s'.procs ensures ProcOk(s', q) {
      if q != p {
        assert ProcOk(s, q);
      }
    }
    if !s'.crashed {
      forall id | id in s'.book ensures Kept(s', id) {
        assert Kept(s, id);
        if s.book[id] !in OnDisk(s) {
          var q :| q in s.procs && s.procs[q].phase != Resting && s.book[id] in s.procs[q].items;
          assert q in s'.procs && s'.procs[q].phase != Resting && s.book[id] in s'.procs[q].items;
        }
      }
    }
  }

  lemma OpenKeeps(s: Sys, p: nat, cap: nat)
    requires Inv(s, cap)
    ensures Inv(Apply(s, Open(p), cap), cap)
  {
    if p !in s.procs {
      ValidAsRows(OnDisk(s));
      BookBounds(OnDisk(s), s.book);
      SetKeeps(s, Apply(s, Open(p), cap), p, cap);
    }
  }

  lemma AddKeeps(s: Sys, p: nat, item: Item, cap: nat)
    requires Inv(s, cap) && item.id !in s.book && |s.book| < cap
    ensures Inv(Apply(s, Add(p, item), cap), cap)
  {
    var s' := Apply(s, Add(p, item), cap);
    if s' != s {
      var had := s.procs[p].items;
      assert ProcOk(s, p);
      BookBounds(had, s.book);
      assert s'.procs[p].items == had + [item];
      AddProcs(s, s', p, item);
      if !s'.crashed {
        AddKept(s, s', p, item);
      }
    }
  }

  /** `s'` is `s` after process `p` appended a new item to its cache. */
  ghost predicate Adds(s: Sys, s': Sys, p: nat, item: Item) {
    && item.id !in s.book && p in s.procs && (s.procs[p].phase == Resting || s.procs[p].phase == Unsaved)
    && s' == Set(s, p, Proc(s.procs[p].items + [item], Dirty)).(book := s.book[item.id := item])
  }

  lemma AddProcs(s: Sys, s': Sys, p: nat, item: Item)
    requires Adds(s, s', p, item) && forall q :: q in s.procs ==> ProcOk(s, q)
    ensures forall q :: q in s'.procs ==> ProcOk(s', q)
  {
    forall q | q in s'.procs ensures ProcOk(s', q) {
      assert ProcOk(s, q);
    }
  }

  lemma AddKept(s: Sys, s': Sys, p: nat, item: Item)
    requires Adds(s, s', p, item) && forall id :: id in s.book ==> Kept(s, id)
    ensures forall id :: id in s'.book ==> Kept(s', id)
  {
    var had := s.procs[p].items;
    forall id | id in s'.book ensures Kept(s', id) {
      if id == item.id {
        assert s'.procs[p].items[|had|] == item;
      } else {
        assert Kept(s, id);
        if s.book[id] !in OnDisk(s) {
          var q :| q in s.procs && s.procs[q].phase != Resting && s.book[id] in s.procs[q].items;
          assert q in s'.procs && s'.procs[q].phase != Resting && s.book[id] in s'.procs[q].items;
        }
      }
    }
  }

  lemma AcquireKeeps(s: Sys, p: nat, cap: nat)
    requires Inv(s, cap)
    ensures Inv(Apply(s, Acquire(p), cap), cap)
  {
    var s' := Apply(s, Acquire(p), cap);
    if s' != s {
      assert ProcOk(s, p);
      if s.file.Rows? {
        MergeFromBook(s.procs[p].items, OnDisk(s), s.book, cap);
      }
      SetKeeps(s, s', p, cap);
    }
  }

  lemma WriteTmpKeeps(s: Sys, p: nat, cap: nat)
    requires Inv(s, cap)
    ensures Inv(Apply(s, WriteTmp(p), cap), cap)
  {
    var s' := Apply(s, WriteTmp(p), cap);
    if s' != s {
      assert ProcOk(s, p);
      SetKeeps(s, s', p, cap);
    }
  }

  lemma ReplaceKeeps(s: Sys, p: nat, cap: nat)
    requires Inv(s, cap)
    ensures Inv(Apply(s, Replace(p), cap), cap) && Grows(s, Apply(s, Replace(p), cap))
  {
    var s' := Apply(s, Replace(p), cap);
    if s' != s {
      assert ProcOk(s, p);
      ValidAsRows(s.tmp);
      assert OnDisk(s') == s.procs[p].items;
      forall q | q in s'.procs ensures ProcOk(s', q) {
        assert ProcOk(s, q);
      }
      if !s'.crashed {
        forall id | id in s'.book ensures Kept(s', id) {
          assert Kept(s, id);
          if s.book[id] !in OnDisk(s) {
            var q :| q in s.procs && s.procs[q].phase != Resting && s.book[id] in s.procs[q].items;
            if q != p {
              assert q in s'.procs && s'.procs[q].phase != Resting && s.book[id] in s'.procs[q].items;
            }
          }
        }
      }
    }
  }

  /** A save that fails is swallowed: the lock is released, the file is as it was, and the cache keeps
      what it holds. */
  lemma FailKeeps(s: Sys, p: nat, cap: nat)
    requires Inv(s, cap)
    ensures Inv(Apply(s, Fail(p), cap), cap)
  {
    var s' := Apply(s, Fail(p), cap);
    if s' != s {
      assert ProcOk(s, p);
      SetKeeps(s, s', p, cap);
    }
  }

  lemma CrashKeeps(s: Sys, p: nat, cap: nat)
    requires Inv(s, cap)
    ensures Inv(Apply(s, Crash(p), cap), cap)
  {
    var s' := Apply(s, Crash(p), cap);
    if s' != s {
      forall q | q in s'.procs ensures ProcOk(s', q) {
        assert ProcOk(s, q);
      }
    }
  }

  lemma StepKeeps(s: Sys, step: Step, cap: nat)
    requires Inv(s, cap)
    requires step.Add? ==> step.item.id !in s.book && |s.book| < cap
    ensures Inv(Apply(s, step, cap), cap) && Grows(s, Apply(s, step, cap))
  {
    match step
    case Open(p) => OpenKeeps(s, p, cap);
    case Add(p, item) => AddKeeps(s, p, item, cap);
    case Acquire(p) => AcquireKeeps(s, p, cap);
    case WriteTmp(p) => WriteTmpKeeps(s, p, cap);
    case Replace(p) => ReplaceKeeps(s, p, cap);
    case Fail(p) => FailKeeps(s, p, cap);
    case Crash(p) => CrashKeeps(s, p, cap);
  }

  lemma OrderlyPrefix(steps: seq<Step>, n: nat, cap: nat)
    requires Orderly(steps, cap) && n <= |steps|
    ensures Orderly(steps[..n], cap)
  {
    forall k | 0 <= k < n && steps[..n][k].Add?
      ensures var book := Run(steps[..n][..k], cap).book; steps[..n][k].item.id !in book && |book| < cap
    {
      assert steps[..n][..k] == steps[..k];
    }
  }

  lemma {:induction false} RunInv(steps: seq<Step>, cap: nat)
    requires Orderly(steps, cap)
    ensures Inv(Run(steps, cap), cap)
  {
    if steps != [] {
      var n := |steps| - 1;
      OrderlyPrefix(steps, n, cap);
      RunInv(steps[..n], cap);
      StepKeeps(Run(steps[..n], cap), steps[n], cap);
    }
  }

  // ---------- Theorems ----------

  /** In any orderly run the file's ids are unique, its items are items that were added, and every item a
      process has finished saving, or has since loaded or merged, is in it. */
  lemma FileIsSound(steps: seq<Step>, cap: nat, p: nat)
    requires Orderly(steps, cap)
    ensures var s := Run(steps, cap);
      && FromBook(OnDisk(s), s.book)
      && (p in s.procs && s.procs[p].phase == Resting ==> Within(s.procs[p].items, OnDisk(s)))
  {
    RunInv(steps, cap);
    if p in Run(steps, cap).procs {
      assert ProcOk(Run(steps, cap), p);
    }
  }

  lemma StepGrows(steps: seq<Step>, k: nat, cap: nat)
    requires Orderly(steps, cap) && k < |steps|
    ensures Within(HeldAfter(steps, k, cap), HeldAfter(steps, k + 1, cap))
  {
    var s := Run(steps[..k], cap);
    assert steps[k].Add? ==> steps[k].item.id !in s.book && |s.book| < cap;
    OrderlyPrefix(steps, k, cap);
    RunInv(steps[..k], cap);
    StepKeeps(s, steps[k], cap);
    assert steps[..k + 1][..k] == steps[..k];
    assert Run(steps[..k + 1], cap) == Apply(s, steps[k], cap);
  }

  /** What the file holds after the first `k` steps. */
  function HeldAfter(steps: seq<Step>, k: nat, cap: nat): seq<Item>
    requires k <= |steps|
  {
    OnDisk(Run(steps[..k], cap))
  }

  lemma {:induction false} Chain(held: nat -> seq<Item>, j: nat, k: nat)
    requires j <= k && forall i :: j <= i < k ==> Within(held(i), held(i + 1))
    ensures Within(held(j), held(k))
  {
    if j < k {
      Chain(held, j, k - 1);
      WithinTransitive(held(j), held(k - 1), held(k));
    }
  }

  /** Nothing that reached the file is ever lost, through later saves, failures and crashes alike. */
  lemma NothingLost(steps: seq<Step>, more: seq<Step>, cap: nat)
    requires Orderly(steps + more, cap)
    ensures Within(OnDisk(Run(steps, cap)), OnDisk(Run(steps + more, cap)))
  {
    var all := steps + more;
    var held := (i: nat) => if i <= |all| then HeldAfter(all, i, cap) else [];
    forall i: nat | |steps| <= i < |all| ensures Within(held(i), held(i + 1)) {
      StepGrows(all, i, cap);
    }
    Chain(held, |steps|, |all|);
    assert all[..|steps|] == steps && all[..|all|] == all;
  }

  lemma WithinTransitive(a: seq<Item>, b: seq<Item>, c: seq<Item>)
    requires Within(a, b) && Within(b, c)
    ensures Within(a, c)
  {
  }

  /** As long as no process crashed, no added item is lost, failed saves included: it is in the file, or in
      the cache of a process whose next successful save will write it. */
  lemma AddedIsKept(steps: seq<Step>, cap: nat, id: string)
    requires Orderly(steps, cap) && !Run(steps, cap).crashed && id in Run(steps, cap).book
    ensures Kept(Run(steps, cap), id)
  {
    RunInv(steps, cap);
  }

  /** Once every process has finished its save, and none crashed, the file holds every item ever added,
      and nothing else. */
  lemma EveryAddIsInTheFile(steps: seq<Step>, cap: nat, x: Item)
    requires Orderly(steps, cap)
    requires var s := Run(steps, cap);
      !s.crashed && forall p :: p in s.procs ==> s.procs[p].phase == Resting
    ensures var s := Run(steps, cap);
      x in OnDisk(s) <==> x.id in s.book && s.book[x.id] == x
  {
    RunInv(steps, cap);
    var s := Run(steps, cap);
    if x.id in s.book && s.book[x.id] == x {
      assert Kept(s, x.id);
    }
  }

  /** Only the rename changes the file, and it installs a list that was completely written: whatever
      happens before it, a crash included, leaves the old file as it was. */
  lemma OnlyReplaceWrites(s: Sys, step: Step, cap: nat)
    requires Inv(s, cap)
    ensures Apply(s, step, cap).file != s.file ==>
      && step.Replace? && step.p in s.procs
      && Apply(s, step, cap).file == Rows(AsRows(s.procs[step.p].items))
      && Within(OnDisk(s), s.procs[step.p].items)
  {
    if step.Replace? && step.p in s.procs {
      assert ProcOk(s, step.p);
    }
  }
}
