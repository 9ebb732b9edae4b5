/** The JSON list store: an in-memory cache merged, under a file lock, with what other processes wrote. */
module JsonStore {
  import opened Prelude

  datatype Item = Item(id: string, at: int, body: string)

  /** One entry of the file's JSON list. */
  datatype Row = NotAnObject | Invalid | Valid(item: Item)

  /** The file as a reader finds it; anything that is not a JSON list counts as unreadable. */
  datatype Disk = Missing | Unreadable | Rows(rows: seq<Row>)

  /** What goes wrong inside a save, whose exceptions are swallowed. */
  datatype Fault = NoFault | BeforeLock | AtWrite

  /** A slice from the end; a cap of zero keeps everything, as `[-0:]` does. */
  function Tail(s: seq<Item>, cap: nat): seq<Item> {
    if cap == 0 then s else LastN(s, cap)
  }

  function ValidItems(rows: seq<Row>): seq<Item> {
    if rows == [] then []
    else ValidItems(rows[..|rows| - 1]) + if rows[|rows| - 1].Valid? then [rows[|rows| - 1].item] else []
  }

  function AsRows(items: seq<Item>): seq<Row> {
    seq(|items|, i requires 0 <= i < |items| => Valid(items[i]))
  }

  lemma {:induction false} ValidAsRows(items: seq<Item>)
    ensures ValidItems(AsRows(items)) == items
  {
    if items != [] {
      var n := |items| - 1;
      assert AsRows(items)[..n] == AsRows(items[..n]);
      ValidAsRows(items[..n]);
    }
  }

  /** Loading gives up on the whole file at the first invalid object. */
  function Loaded(disk: Disk, cap: nat): seq<Item> {
    match disk
    case Rows(rows) => if Invalid in rows then [] else Tail(ValidItems(rows), cap)
    case _ => []
  }

  function Ids(items: seq<Item>): set<string> {
    set i | 0 <= i < |items| :: items[i].id
  }

  /** The valid rows whose id neither the cache nor an earlier row has, in file order. */
  function DiskOnly(known: set<string>, rows: seq<Row>): seq<Item> {
    if rows == [] then []
    else
      var before := DiskOnly(known, rows[..|rows| - 1]);
      var row := rows[|rows| - 1];
      if row.Valid? && row.item.id !in known && row.item.id !in Ids(before) then before + [row.item] else before
  }

  /** The cached copy always wins; items only on disk go to the end before the cap is applied. */
  function Merged(items: seq<Item>, disk: Disk, cap: nat): seq<Item> {
    match disk
    case Rows(rows) => Tail(items + DiskOnly(Ids(items), rows), cap)
    case _ => items
  }

  function Without(items: seq<Item>, purge: Item -> bool): seq<Item> {
    if items == [] then []
    else Without(items[..|items| - 1], purge) + if purge(items[|items| - 1]) then [] else [items[|items| - 1]]
  }

  datatype State = State(items: seq<Item>, disk: Disk)

  /** One save: merge, cut, purge, write; without a lock there is no merge. */
  function Saved(s: State, cap: nat, locking: bool, purge: Item -> bool, fault: Fault): State {
    if fault == BeforeLock then s
    else
      var merged := if locking then Merged(s.items, s.disk, cap) else s.items;
      var kept := Without(merged, purge);
      State(kept, if fault == AtWrite then s.disk else Rows(AsRows(kept)))
  }

  // ---------- What these say ----------

  lemma {:induction false} WithoutMembers(items: seq<Item>, purge: Item -> bool, x: Item)
    ensures x in Without(items, purge) <==> x in items && !purge(x)
  {
    if items != [] {
      var n := |items| - 1;
      WithoutMembers(items[..n], purge, x);
      assert items == items[..n] + [items[n]];
    }
  }

  ghost predicate UniqueIds(items: seq<Item>) {
    forall i, j :: 0 <= i < j < |items| ==> items[i].id != items[j].id
  }

  /** The rows a merge adds: one per id the cache lacks, namely the first valid row with that id. */
  ghost predicate FirstOf(rows: seq<Row>, x: Item) {
    exists i :: 0 <= i < |rows| && rows[i] == Valid(x)
      && forall k :: 0 <= k < i ==> !(rows[k].Valid? && rows[k].item.id == x.id)
  }

  lemma {:induction false} DiskOnlyIds(known: set<string>, rows: seq<Row>, id: string)
    ensures UniqueIds(DiskOnly(known, rows))
    ensures id in Ids(DiskOnly(known, rows)) <==>
      id !in known && exists i :: 0 <= i < |rows| && rows[i].Valid? && rows[i].item.id == id
  {
    if rows != [] {
      var n := |rows| - 1;
      var before := DiskOnly(known, rows[..n]);
      DiskOnlyIds(known, rows[..n], id);
      var out := DiskOnly(known, rows);
      if out != before {
        assert Ids(out) == Ids(before) + {rows[n].item.id} by {
          forall k | k in Ids(before) + {rows[n].item.id} ensures k in Ids(out) {
            if k in Ids(before) {
              var i :| 0 <= i < |before| && before[i].id == k;
              assert out[i].id == k;
            } else {
              assert out[|before|].id == k;
            }
          }
        }
        forall i | 0 <= i < |before| ensures before[i].id != rows[n].item.id {
          assert before[i].id in Ids(before);
        }
      }
      if i :| 0 <= i < n && rows[i].Valid? && rows[i].item.id == id {
        assert rows[..n][i].Valid? && rows[..n][i].item.id == id;
      }
      if id in Ids(before) {
        var i :| 0 <= i < |rows[..n]| && rows[..n][i].Valid? && rows[..n][i].item.id == id;
        assert rows[i].Valid? && rows[i].item.id == id;
      }
    }
  }

  /** A merge adds exactly the first valid row of every id the cache lacks. */
  lemma {:induction false} DiskOnlyMembers(known: set<string>, rows: seq<Row>, x: Item)
    ensures x in DiskOnly(known, rows) <==> x.id !in known && FirstOf(rows, x)
  {
    if rows != [] {
      var n := |rows| - 1;
      DiskOnlyMembers(known, rows[..n], x);
      DiskOnlyIds(known, rows[..n], x.id);
      FirstOfGrows(rows, x);
    }
  }

  lemma FirstOfGrows(rows: seq<Row>, x: Item)
    requires rows != []
    ensures var n := |rows| - 1;
      FirstOf(rows, x) <==>
        || FirstOf(rows[..n], x)
        || (rows[n] == Valid(x) && forall i :: 0 <= i < n ==> !(rows[..n][i].Valid? && rows[..n][i].item.id == x.id))
  {
    var n := |rows| - 1;
    if FirstOf(rows[..n], x) {
      var i :| 0 <= i < n && rows[..n][i] == Valid(x)
        && forall k :: 0 <= k < i ==> !(rows[..n][k].Valid? && rows[..n][k].item.id == x.id);
      assert rows[i] == Valid(x);
      forall k | 0 <= k < i ensures !(rows[k].Valid? && rows[k].item.id == x.id) {
        assert rows[..n][k] == rows[k];
      }
    }
    if FirstOf(rows, x) {
      var i :| 0 <= i < |rows| && rows[i] == Valid(x)
        && forall k :: 0 <= k < i ==> !(rows[k].Valid? && rows[k].item.id == x.id);
      if i < n {
        assert rows[..n][i] == Valid(x);
      }
    }
  }

  /** A locked save writes exactly the cache plus the items only on disk, cut to the last `cap`, minus
      the purged ones, in that order; a failed save leaves the file as it was. */
  lemma SavedFile(s: State, cap: nat, purge: Item -> bool, fault: Fault, x: Item)
    ensures var after := Saved(s, cap, true, purge, fault);
      if fault != NoFault then after.disk == s.disk
      else
        && after.disk == Rows(AsRows(after.items))
        && after.items == Without(Merged(s.items, s.disk, cap), purge)
        && (x in after.items <==> x in Merged(s.items, s.disk, cap) && !purge(x))
  {
    WithoutMembers(Merged(s.items, s.disk, cap), purge, x);
  }

  /** Within the cap, an item is in the merge exactly when it is cached, or it is the file's first valid
      row of an id the cache lacks. */
  lemma MergedMembers(items: seq<Item>, rows: seq<Row>, cap: nat, x: Item)
    requires cap == 0 || |items + DiskOnly(Ids(items), rows)| <= cap
    ensures x in Merged(items, Rows(rows), cap) <==>
      x in items || (x.id !in Ids(items) && FirstOf(rows, x))
  {
    DiskOnlyMembers(Ids(items), rows, x);
  }

  /** Reopening after a successful save gives back exactly what was saved, in order: an add within the
      cap survives the process that made it. */
  lemma ReopenedHolds(s: State, cap: nat, purge: Item -> bool)
    requires cap == 0 || |s.items| <= cap
    ensures var after := Saved(s, cap, true, purge, NoFault);
      Loaded(after.disk, cap) == after.items
  {
    var merged := Merged(s.items, s.disk, cap);
    var kept := Without(merged, purge);
    WithoutShorter(merged, purge);
    ValidAsRows(kept);
    assert Invalid !in AsRows(kept);
  }

  lemma {:induction false} ValidItemsMembers(rows: seq<Row>, x: Item)
    ensures x in ValidItems(rows) <==> Valid(x) in rows
  {
    if rows != [] {
      var n := |rows| - 1;
      ValidItemsMembers(rows[..n], x);
      assert rows == rows[..n] + [rows[n]];
    }
  }

  /** Within the cap, loading keeps every valid row exactly when no object is invalid, or there was nothing
      valid to keep. */
  lemma LoadKeepsAllIff(rows: seq<Row>, cap: nat)
    requires cap == 0 || |ValidItems(rows)| <= cap
    ensures (forall x :: Valid(x) in rows ==> x in Loaded(Rows(rows), cap))
      <==> Invalid !in rows || forall x :: Valid(x) !in rows
  {
    if Invalid !in rows {
      forall x | Valid(x) in rows ensures x in Loaded(Rows(rows), cap) {
        ValidItemsMembers(rows, x);
      }
    }
  }

  /** Loading is all or nothing where merging is not: one invalid object empties a fresh cache, while a
      merge skips it and takes the valid rows around it. */
  lemma InvalidRowEmptiesLoad(rows: seq<Row>, cap: nat, x: Item)
    requires Invalid in rows && Valid(x) in rows && |rows| <= cap
    ensures Loaded(Rows(rows), cap) == []
    ensures exists y :: y in Merged([], Rows(rows), cap) && y.id == x.id
  {
    var i :| 0 <= i < |rows| && rows[i] == Valid(x);
    MergeIntoEmpty(rows, cap);
    DiskOnlyIds({}, rows, x.id);
    var extra := DiskOnly({}, rows);
    assert rows[i].Valid? && rows[i].item.id == x.id;
    var k :| 0 <= k < |extra| && extra[k].id == x.id;
    assert extra[k] in extra;
  }

  lemma MergeIntoEmpty(rows: seq<Row>, cap: nat)
    requires |rows| <= cap
    ensures Merged([], Rows(rows), cap) == DiskOnly({}, rows)
  {
    DiskOnlySize({}, rows);
    assert Ids([]) == {} && [] + DiskOnly({}, rows) == DiskOnly({}, rows);
  }

  lemma DiskOnlySize(known: set<string>, rows: seq<Row>)
    ensures |DiskOnly(known, rows)| <= |rows|
  {
  }

  // ---------- Removal ----------

  function HasId(id: string): Item -> bool {
    (x: Item) => x.id == id
  }

  function Removed(s: State, id: string, cap: nat, locking: bool, fault: Fault): (State, bool) {
    var kept := Without(s.items, HasId(id));
    if |kept| < |s.items| then (Saved(State(kept, s.disk), cap, locking, HasId(id), fault), true) else (s, false)
  }

  lemma {:induction false} WithoutNoId(items: seq<Item>, id: string)
    ensures id !in Ids(Without(items, HasId(id)))
    ensures |Without(items, HasId(id))| < |items| <==> id in Ids(items)
    ensures |Without(items, HasId(id))| <= |items|
  {
    if items != [] {
      var n := |items| - 1;
      WithoutNoId(items[..n], id);
      assert Ids(items) == Ids(items[..n]) + {items[n].id} by { IdsGrow(items); }
      var w := Without(items, HasId(id));
      if items[n].id != id {
        IdsGrow(w);
        assert w[..|w| - 1] == Without(items[..n], HasId(id));
      }
    }
  }

  lemma IdsGrow(items: seq<Item>)
    requires items != []
    ensures Ids(items) == Ids(items[..|items| - 1]) + {items[|items| - 1].id}
  {
    var n := |items| - 1;
    forall k | k in Ids(items[..n]) + {items[n].id} ensures k in Ids(items) {
      if k in Ids(items[..n]) {
        var i :| 0 <= i < n && items[..n][i].id == k;
        assert items[i].id == k;
      } else {
        assert items[n].id == k;
      }
    }
    forall k | k in Ids(items) ensures k in Ids(items[..n]) + {items[n].id} {
      var i :| 0 <= i < |items| && items[i].id == k;
      if i < n {
        assert items[..n][i].id == k;
      }
    }
  }

  /** `remove` answers true exactly when the cache held the id. Then the cache no longer does, and the
      file holds no such item either, unless the save itself failed, which leaves the file untouched.
      When it answers false nothing changes, even if the file holds the id. */
  lemma RemovedMeans(s: State, id: string, cap: nat, locking: bool, fault: Fault)
    ensures var (after, removed) := Removed(s, id, cap, locking, fault);
      && (removed <==> id in Ids(s.items))
      && (!removed ==> after == s)
      && (removed ==> id !in Ids(after.items))
      && (removed && fault == NoFault ==> after.disk.Rows? && id !in Ids(ValidItems(after.disk.rows)))
      && (removed && fault != NoFault ==> after.disk == s.disk)
  {
    WithoutNoId(s.items, id);
    var kept := Without(s.items, HasId(id));
    var merged := if locking then Merged(kept, s.disk, cap) else kept;
    WithoutNoId(merged, id);
    ValidAsRows(Without(merged, HasId(id)));
  }

  lemma WithoutSecond(x: Item, y: Item)
    requires x.id != y.id
    ensures Without([x, y], HasId(y.id)) == [x]
  {
    var keep := HasId(y.id);
    assert [x, y][..1] == [x] && [x][..0] == [];
    assert !keep(x) && keep(y);
    assert Without([x], keep) == [x];
  }

  /** The cache and what a merge would add to it, before the cap. */
  function Pooled(items: seq<Item>, disk: Disk): seq<Item> {
    match disk
    case Rows(rows) => items + DiskOnly(Ids(items), rows)
    case _ => items
  }

  lemma PooledUnique(items: seq<Item>, disk: Disk)
    requires UniqueIds(items)
    ensures UniqueIds(Pooled(items, disk))
  {
    if disk.Rows? {
      var extra := DiskOnly(Ids(items), disk.rows);
      DiskOnlyIds(Ids(items), disk.rows, "");
      forall i | 0 <= i < |extra| ensures extra[i].id !in Ids(items) {
        DiskOnlyIds(Ids(items), disk.rows, extra[i].id);
        assert extra[i].id in Ids(extra);
      }
      forall i, j | 0 <= i < |items| && 0 <= j < |extra| ensures items[i].id != extra[j].id {
        assert items[i].id in Ids(items);
      }
    }
  }

  lemma {:induction false} WithoutUnique(items: seq<Item>, purge: Item -> bool)
    requires UniqueIds(items)
    ensures UniqueIds(Without(items, purge))
  {
    if items != [] {
      var n := |items| - 1;
      WithoutUnique(items[..n], purge);
      forall i | 0 <= i < |Without(items[..n], purge)| ensures Without(items[..n], purge)[i].id != items[n].id {
        var x := Without(items[..n], purge)[i];
        WithoutMembers(items[..n], purge, x);
        assert x in items[..n];
      }
    }
  }

  /** The cut drops the oldest items; what it drops is gone exactly when no later item repeats it. */
  lemma TailMembers(items: seq<Item>, cap: nat, i: nat)
    requires UniqueIds(items) && i < |items|
    ensures items[i] in Tail(items, cap) <==> cap == 0 || |items| <= cap || |items| - cap <= i
  {
    var tail := Tail(items, cap);
    if |tail| < |items| && |items| - cap <= i {
      assert tail[i - (|items| - cap)] == items[i];
    }
  }

  /** A cut drops nothing but the item with this id. */
  ghost predicate CutSpares(all: seq<Item>, id: string, cap: nat) {
    forall i :: 0 <= i < |all| && all[i].id != id ==> all[i] in Tail(all, cap)
  }

  lemma CutSparesIff(all: seq<Item>, id: string, cap: nat)
    requires UniqueIds(all)
    ensures CutSpares(all, id, cap) <==> cap == 0 || |all| <= cap || (|all| == cap + 1 && all[0].id == id)
  {
    forall i | 0 <= i < |all| ensures all[i] in Tail(all, cap) <==> cap == 0 || |all| <= cap || |all| - cap <= i {
      TailMembers(all, cap, i);
    }
    if 0 < cap && cap + 1 < |all| {
      assert all[0].id != all[1].id;
    }
  }

  lemma RemovedMembers(s: State, id: string, cap: nat, x: Item)
    requires id in Ids(s.items)
    ensures x in Removed(s, id, cap, true, NoFault).0.items
      <==> x in Merged(Without(s.items, HasId(id)), s.disk, cap) && x.id != id
  {
    WithoutNoId(s.items, id);
    WithoutMembers(Merged(Without(s.items, HasId(id)), s.disk, cap), HasId(id), x);
  }

  /** When a removal loses nothing but what it was asked to remove: exactly when the cache without the item,
      together with what the file alone holds, fits the cap, or is one over it and the file's copy of the
      removed item is the very first of them, which the cut then drops. An unreadable file is not merged,
      so nothing is cut. */
  lemma RemovalLosesNothingElseIff(s: State, id: string, cap: nat)
    requires UniqueIds(s.items) && id in Ids(s.items)
    ensures var all := Pooled(Without(s.items, HasId(id)), s.disk);
      (forall x :: x in all && x.id != id ==> x in Removed(s, id, cap, true, NoFault).0.items)
      <==> !s.disk.Rows? || cap == 0 || |all| <= cap || (|all| == cap + 1 && all[0].id == id)
  {
    var kept := Without(s.items, HasId(id));
    var all := Pooled(kept, s.disk);
    forall x ensures x in Removed(s, id, cap, true, NoFault).0.items <==> x in Merged(kept, s.disk, cap) && x.id != id {
      RemovedMembers(s, id, cap, x);
    }
    if s.disk.Rows? {
      WithoutUnique(s.items, HasId(id));
      PooledUnique(kept, s.disk);
      CutSparesIff(all, id, cap);
      assert Merged(kept, s.disk, cap) == Tail(all, cap);
    }
  }

  /** Without a lock there is no merge, and nothing else is lost. */
  lemma UnlockedRemovalLosesNothing(s: State, id: string, cap: nat, x: Item)
    requires x in s.items && x.id != id
    ensures x in Removed(s, id, cap, false, NoFault).0.items
  {
    WithoutMembers(s.items, HasId(id), x);
    WithoutMembers(Without(s.items, HasId(id)), HasId(id), x);
  }

  /** The cap is applied before the purge, so removing one item can lose another: with room for two, a
      process that caches `b` and `a` and removes `a` drops `b` when the file already holds `c`. */
  lemma RemovalCanLoseAnother(a: Item, b: Item, c: Item)
    requires a.id != b.id && b.id != c.id && a.id != c.id
    ensures Removed(State([b, a], Rows(AsRows([c, a]))), a.id, 2, true, NoFault).0.items == [c]
  {
    var rows := AsRows([c, a]);
    WithoutSecond(b, a);
    WithoutSecond(c, a);
    assert [b][..0] == [] && [c][..0] == [];
    assert rows[..1] == [Valid(c)] && rows[..1][..0] == [];
    assert Ids([b]) == {b.id} by { IdsGrow([b]); }
    assert Ids([c]) == {c.id} by { IdsGrow([c]); }
    assert DiskOnly({b.id}, rows[..1]) == [c];
    assert DiskOnly({b.id}, rows) == [c, a];
    assert [b] + [c, a] == [b, c, a];
    assert Merged([b], Rows(rows), 2) == [c, a];
  }

  // ---------- The store ----------

  class File {
    var content: Disk

    constructor (content: Disk)
      ensures this.content == content
    {
      this.content := content;
    }
  }

  class JsonListStore {
    const path: File
    const cap: nat
    const locking: bool
    var items: seq<Item>

    /** Opens the store on what the file holds; it never fails. */
    constructor (path: File, cap: nat, locking: bool)
      ensures this.path == path && this.cap == cap && this.locking == locking
      ensures items == Loaded(path.content, cap)
    {
      this.path, this.cap, this.locking := path, cap, locking;
      this.items := Loaded(path.content, cap);
    }

    function Now(): State
      reads this, path
    {
      State(items, path.content)
    }

    /** Appends what other processes wrote, entry by entry, remembering the ids already held. */
    method MergeFromDisk()
      modifies this`items
      ensures items == Merged(old(items), path.content, cap)
    {
      if !path.content.Rows? {
        return;
      }
      var raw := path.content.rows;
      ghost var known := Ids(items);
      var mine: set<string> := set i | 0 <= i < |items| :: items[i].id;
      for i := 0 to |raw|
        invariant items == old(items) + DiskOnly(known, raw[..i])
        invariant mine == known + Ids(DiskOnly(known, raw[..i]))
      {
        assert raw[..i + 1][..i] == raw[..i];
        if raw[i].Valid? && raw[i].item.id !in mine {
          ghost var before := DiskOnly(known, raw[..i]);
          IdsGrow(before + [raw[i].item]);
          assert (before + [raw[i].item])[..|before|] == before;
          items := items + [raw[i].item];
          mine := mine + {raw[i].item.id};
        }
      }
      assert raw[..|raw|] == raw;
      items := Tail(items, cap);
    }

    method Save(purge: Item -> bool, fault: Fault)
      modifies this`items, path
      ensures Now() == Saved(old(Now()), cap, locking, purge, fault)
    {
      if fault == BeforeLock {
        return;
      }
      if locking {
        MergeFromDisk();
      }
      items := Without(items, purge);
      if fault != AtWrite {
        path.content := Rows(AsRows(items));
      }
    }

    method Remove(id: string, fault: Fault) returns (changed: bool)
      modifies this`items, path
      ensures (Now(), changed) == Removed(old(Now()), id, cap, locking, fault)
    {
      var before := |items|;
      var kept := Without(items, HasId(id));
      if |kept| < before {
        items := kept;
        Save(HasId(id), fault);
        return true;
      }
      WithoutShorter(items, HasId(id));
      return false;
    }

    method Add(item: Item, fault: Fault)
      modifies this`items, path
      ensures Now() == Saved(State(Cut(old(items) + [item], cap), old(path.content)), cap, locking, x => false, fault)
    {
      items := items + [item];
      if |items| > cap {
        items := Tail(items, cap);
      }
      Save(x => false, fault);
    }
  }

  /** The in-memory cut of an add. */
  function Cut(items: seq<Item>, cap: nat): seq<Item> {
    if |items| > cap then Tail(items, cap) else items
  }

  /** Adding keeps the newest: the cache ends with the new item and holds the last `cap` of what it would
      otherwise hold, or everything while that fits; a cap of zero never cuts. */
  lemma AddKeepsNewest(items: seq<Item>, x: Item, cap: nat)
    ensures var all, kept := items + [x], Cut(items + [x], cap);
      && |kept| == (if cap == 0 || |all| <= cap then |all| else cap)
      && kept == all[|all| - |kept|..] && kept[|kept| - 1] == x
  {
  }

  /** Loading a file without invalid objects takes its last `cap` items, or all of them while they fit. */
  lemma LoadKeepsNewest(rows: seq<Row>, cap: nat)
    requires Invalid !in rows
    ensures var all, loaded := ValidItems(rows), Loaded(Rows(rows), cap);
      && |loaded| == (if cap == 0 || |all| <= cap then |all| else cap)
      && loaded == all[|all| - |loaded|..]
  {
  }

  lemma {:induction false} WithoutShorter(items: seq<Item>, purge: Item -> bool)
    ensures |Without(items, purge)| <= |items|
    ensures |Without(items, purge)| == |items| ==> Without(items, purge) == items
  {
    if items != [] {
      WithoutShorter(items[..|items| - 1], purge);
    }
  }
}
