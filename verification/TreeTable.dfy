/** bootstrap-treetable: rows grouped by parent code are drawn from the roots down, and the rows that
    no root reaches are swept up at the end. */
module TreeTables {

  /** A value in a data row, as far as the component looks at it; Missing is null or undefined. */
  datatype JsValue = Missing | Num(n: int) | Str(s: string)

  datatype Row = Row(code: JsValue, parent: JsValue)

  /** A table row that was appended: the data row, its level, and whether it got an expander. */
  datatype Entry = Entry(row: nat, level: nat, expandable: bool)

  predicate Falsy(v: JsValue)
  {
    v == Missing || v == Num(0) || v == Str("")
  }

  /** Loosely equal to '0', 0, null or '': a string compares to 0 by its numeric value. */
  predicate DefaultRoot(v: JsValue)
  {
    Falsy(v) || (v.Str? && forall i :: 0 <= i < |v.s| ==> v.s[i] == '0')
  }

  const ROOTS := "_root_"

  function BucketOf(code: string): string
  {
    "_n_" + code
  }

  lemma BucketsDiffer(a: string, b: string)
    ensures BucketOf(a) != ROOTS
    ensures BucketOf(a) == BucketOf(b) ==> a == b
  {
    assert BucketOf(a)[1] != ROOTS[1];
    assert BucketOf(a)[3..] == a && BucketOf(b)[3..] == b;
  }

  /** The data that was loaded, the configured root code, and how numbers read as text (nothing is
      assumed about that). */
  datatype Data = Data(rows: seq<Row>, rootCode: JsValue, digits: int -> string) {

    /** How a value reads inside a property name. */
    function Text(v: JsValue): string
    {
      match v
      case Missing => "undefined"
      case Num(n) => digits(n)
      case Str(s) => s
    }

    predicate LooselyEqual(a: JsValue, b: JsValue)
    {
      if a.Missing? || b.Missing? then a == b
      else if a.Num? && b.Num? then a == b
      else Text(a) == Text(b)
    }

    predicate IsRoot(i: nat)
      requires i < |rows|
    {
      var parent := rows[i].parent;
      Falsy(parent) || if Falsy(rootCode) then DefaultRoot(parent) else LooselyEqual(parent, rootCode)
    }

    /** The list a row is pushed to. */
    function Bucket(i: nat): string
      requires i < |rows|
    {
      if IsRoot(i) then ROOTS else BucketOf(Text(rows[i].parent))
    }

    /** The rows among the first `n` that belong to a bucket, in data order. */
    function Members(bucket: string, n: nat): seq<nat>
      requires n <= |rows|
    {
      if n == 0 then [] else
        Members(bucket, n - 1) + if Bucket(n - 1) == bucket then [n - 1] else []
    }

    predicate Child(c: nat, p: nat)
    {
      c < |rows| && p < |rows| && !IsRoot(c) && Text(rows[c].parent) == Text(rows[p].code)
    }

    predicate HasChild(p: nat)
    {
      exists c: nat :: c < |rows| && Child(c, p)
    }

    /** Codes identify rows: no row is below two. */
    ghost predicate UniqueCodes()
    {
      forall c: nat, p: nat, q: nat :: Child(c, p) && Child(c, q) ==> p == q
    }

    /** `i` hangs `n` levels below a root. */
    ghost predicate Rooted(i: nat, n: nat)
      decreases n
    {
      i < |rows| && if n == 0 then IsRoot(i) else exists p: nat :: Child(i, p) && Rooted(p, n - 1)
    }

    /** Without a root code of its own (null, 0 or the empty text) the table takes as roots the rows whose
        parent is missing, zero, or a text of nothing but zeros. */
    lemma RootsByDefault(i: nat)
      requires i < |rows| && (rootCode == Missing || rootCode == Num(0) || rootCode == Str(""))
      ensures IsRoot(i) <==>
              match rows[i].parent
              case Missing => true
              case Num(n) => n == 0
              case Str(s) => forall k :: 0 <= k < |s| ==> s[k] == '0'
    {
    }

    /** With a root code they are the rows whose parent is missing, zero or empty, or is that code: the same
        number or the same text, or a number that reads as the text. */
    lemma RootsByCode(i: nat)
      requires i < |rows| && rootCode != Missing && rootCode != Num(0) && rootCode != Str("")
      ensures IsRoot(i) <==>
              match rows[i].parent
              case Missing => true
              case Num(n) => n == 0 || rootCode == Num(n) || (rootCode.Str? && rootCode.s == digits(n))
              case Str(s) => s == "" || rootCode == Str(s) || (rootCode.Num? && digits(rootCode.n) == s)
    {
    }

    /** A row lies below another if it is no root and its parent reads as the other's code. */
    lemma ChildrenByCode(c: nat, p: nat)
      requires c < |rows| && p < |rows| && rows[c].parent.Str? && rows[p].code.Str?
      ensures Child(c, p) <==> !IsRoot(c) && rows[c].parent.s == rows[p].code.s
    {
    }

    lemma {:induction false} MembersAre(bucket: string, n: nat)
      requires n <= |rows|
      ensures forall i :: i in Members(bucket, n) <==> 0 <= i < n && Bucket(i) == bucket
    {
      if n != 0 {
        MembersAre(bucket, n - 1);
      }
    }

    lemma {:induction false} MembersInOrder(bucket: string, n: nat)
      requires n <= |rows|
      ensures forall k :: 0 <= k < |Members(bucket, n)| ==> Members(bucket, n)[k] < n
      ensures forall k, l :: 0 <= k < l < |Members(bucket, n)| ==> Members(bucket, n)[k] < Members(bucket, n)[l]
    {
      if n != 0 {
        MembersInOrder(bucket, n - 1);
      }
    }

    /** The rows pushed to a code's bucket are the rows below it. */
    lemma ChildrenBucket(p: nat)
      requires p < |rows|
      ensures forall c: nat :: Child(c, p) <==> c < |rows| && Bucket(c) == BucketOf(Text(rows[p].code))
    {
      forall c: nat | c < |rows|
        ensures Child(c, p) <==> Bucket(c) == BucketOf(Text(rows[p].code))
      {
        BucketsDiffer(Text(rows[c].parent), Text(rows[p].code));
        BucketsDiffer(Text(rows[p].code), Text(rows[p].code));
      }
    }

    lemma AboveRooted(i: nat, n: nat) returns (p: nat)
      requires 0 < n && Rooted(i, n)
      ensures Child(i, p) && Rooted(p, n - 1)
    {
      p :| Child(i, p) && Rooted(p, n - 1);
    }

    lemma BelowRooted(i: nat, p: nat, n: nat)
      requires Child(i, p) && Rooted(p, n)
      ensures Rooted(i, n + 1)
    {
    }

    lemma {:induction false} OneDepth(i: nat, m: nat, n: nat)
      requires UniqueCodes() && Rooted(i, m) && Rooted(i, n)
      ensures m == n
      decreases m
    {
      if m != 0 && n != 0 {
        var p := AboveRooted(i, m);
        var q := AboveRooted(i, n);
        OneDepth(p, m - 1, n - 1);
      }
    }
  }

  /** The state of the drawing: which rows are marked shown, the table body, and, to reason about it,
      the entry above each entry (-1 for a root) and the entry of each row. */
  datatype Drawing = Drawing(isShow: seq<bool>, tbody: seq<Entry>, above: seq<int>, at: map<nat, nat>)

  /** Each shown row has exactly one entry, and each entry shows a row. */
  ghost predicate OnceEach(t: Data, d: Drawing)
  {
    && |d.isShow| == |t.rows|
    && (forall k :: 0 <= k < |d.tbody| ==> d.tbody[k].row < |t.rows| && d.isShow[d.tbody[k].row])
    && (forall k :: 0 <= k < |d.tbody| ==> d.tbody[k].row in d.at && d.at[d.tbody[k].row] == k)
    && (forall i: nat :: i < |t.rows| && d.isShow[i] ==> i in d.at && d.at[i] < |d.tbody| && d.tbody[d.at[i]].row == i)
  }

  /** Where entry `k` belongs: a root at level 1, or one level below the entry of its parent, with only
      deeper entries than the parent in between. */
  ghost predicate Placed(t: Data, d: Drawing, k: nat)
    requires k < |d.tbody| == |d.above|
  {
    var up := d.above[k];
    if up < 0 then
      d.tbody[k].row < |t.rows| && t.IsRoot(d.tbody[k].row) && d.tbody[k].level == 1
    else
      && up < k
      && t.Child(d.tbody[k].row, d.tbody[up].row)
      && d.tbody[k].level == d.tbody[up].level + 1
      && forall j :: up < j < k ==> d.tbody[k].level <= d.tbody[j].level
  }

  /** The entries follow the depth-first walk of the forest, siblings in data order. */
  ghost predicate Walked(t: Data, d: Drawing)
  {
    && OnceEach(t, d)
    && |d.above| == |d.tbody|
    && (forall k :: 0 <= k < |d.tbody| ==> Placed(t, d, k))
    && (forall k :: 0 <= k < |d.tbody| ==> d.tbody[k].expandable == t.HasChild(d.tbody[k].row))
    && (forall k, l {:trigger t.Bucket(d.tbody[k].row), t.Bucket(d.tbody[l].row)} ::
          0 <= k < l < |d.tbody| && t.Bucket(d.tbody[k].row) == t.Bucket(d.tbody[l].row)
          ==> d.tbody[k].row < d.tbody[l].row)
  }

  /** `item` may be drawn next, at `level`, below entry `parent`. */
  ghost predicate MayDraw(t: Data, d: Drawing, item: nat, level: nat, parent: int)
  {
    && Walked(t, d)
    && item < |t.rows| && !d.isShow[item]
    && (if parent < 0 then t.IsRoot(item) && level == 1
        else parent < |d.tbody| && t.Child(item, d.tbody[parent].row) && level == d.tbody[parent].level + 1
             && forall j :: parent < j < |d.tbody| ==> level <= d.tbody[j].level)
    && (forall i: nat :: i < |t.rows| && d.isShow[i] && t.Bucket(i) == t.Bucket(item) ==> i < item)
  }

  ghost predicate ChildrenShown(t: Data, d: Drawing, k: nat)
    requires k < |d.tbody| && |d.isShow| == |t.rows|
  {
    forall c: nat :: t.Child(c, d.tbody[k].row) ==> d.isShow[c]
  }

  /** The table body grew from `d0` to `d1` by `item` at `level` and deeper entries. */
  ghost predicate Grew(t: Data, d0: Drawing, d1: Drawing, item: nat, level: nat)
    requires |d0.isShow| == |t.rows|
  {
    && Walked(t, d1)
    && d0.tbody < d1.tbody
    && d1.tbody[|d0.tbody|].row == item && d1.tbody[|d0.tbody|].level == level
    && (forall j :: |d0.tbody| < j < |d1.tbody| ==> level < d1.tbody[j].level)
    && item < |t.rows| && d1.isShow[item]
    && (forall i: nat :: i < |t.rows| && d0.isShow[i] ==> d1.isShow[i])
  }

  /** Whatever else than `item` is newly shown is below something newly shown. */
  ghost predicate NewBelowNew(t: Data, before: seq<bool>, after: seq<bool>, item: nat)
    requires |before| == |after| == |t.rows|
  {
    forall i: nat {:trigger after[i]} :: i < |t.rows| && after[i] && !before[i] && i != item ==>
      exists p: nat :: t.Child(i, p) && !before[p]
  }

  /** The entries from `from` on have all of their children drawn. */
  ghost predicate Closed(t: Data, d: Drawing, from: nat)
    requires |d.isShow| == |t.rows|
  {
    forall k :: from <= k < |d.tbody| ==> ChildrenShown(t, d, k)
  }

  /** From `d0` to `d1`, `item` was drawn at `level` and rows below it followed; the entries from
      `closed` on have all of their children drawn. */
  ghost predicate Drew(t: Data, d0: Drawing, d1: Drawing, item: nat, level: nat, closed: nat)
    requires |d0.isShow| == |t.rows|
  {
    Grew(t, d0, d1, item, level) && NewBelowNew(t, d0.isShow, d1.isShow, item) && Closed(t, d1, closed)
  }

  function Appended(d: Drawing, item: nat, level: nat, expandable: bool, parent: int): Drawing
    requires item < |d.isShow|
  {
    Drawing(d.isShow[item := true], d.tbody + [Entry(item, level, expandable)], d.above + [parent],
            d.at[item := |d.tbody|])
  }

  lemma AppendOnce(t: Data, d: Drawing, item: nat, level: nat, expandable: bool, parent: int)
    requires OnceEach(t, d) && item < |t.rows| && !d.isShow[item]
    ensures OnceEach(t, Appended(d, item, level, expandable, parent))
  {
  }

  lemma AppendPlaced(t: Data, d: Drawing, item: nat, level: nat, expandable: bool, parent: int, k: nat)
    requires MayDraw(t, d, item, level, parent) && k <= |d.tbody|
    ensures Placed(t, Appended(d, item, level, expandable, parent), k)
  {
    assert k < |d.tbody| ==> Placed(t, d, k);
  }

  lemma AppendOrdered(t: Data, d: Drawing, item: nat, level: nat, parent: int, expandable: bool, k: nat, l: nat)
    requires MayDraw(t, d, item, level, parent)
    requires 0 <= k < l <= |d.tbody|
    ensures var after := Appended(d, item, level, expandable, parent);
            after.tbody[k].row < |t.rows| && after.tbody[l].row < |t.rows|
            && (t.Bucket(after.tbody[k].row) == t.Bucket(after.tbody[l].row) ==>
                after.tbody[k].row < after.tbody[l].row)
  {
  }

  lemma AppendWalked(t: Data, d: Drawing, item: nat, level: nat, parent: int)
    requires MayDraw(t, d, item, level, parent)
    ensures Walked(t, Appended(d, item, level, t.HasChild(item), parent))
  {
    var after := Appended(d, item, level, t.HasChild(item), parent);
    AppendOnce(t, d, item, level, t.HasChild(item), parent);
    forall k | 0 <= k < |after.tbody| ensures Placed(t, after, k) {
      AppendPlaced(t, d, item, level, t.HasChild(item), parent, k);
    }
    forall k, l | 0 <= k < l < |after.tbody| && t.Bucket(after.tbody[k].row) == t.Bucket(after.tbody[l].row)
      ensures after.tbody[k].row < after.tbody[l].row
    {
      AppendOrdered(t, d, item, level, parent, t.HasChild(item), k, l);
    }
  }

  /** No child of an undrawn row is drawn. */
  lemma UndrawnChildren(t: Data, d: Drawing, item: nat)
    requires t.UniqueCodes() && Walked(t, d) && item < |t.rows| && !d.isShow[item]
    ensures forall c: nat :: t.Child(c, item) ==> !d.isShow[c]
  {
    forall c: nat | t.Child(c, item) ensures !d.isShow[c] {
      assert d.isShow[c] ==> Placed(t, d, d.at[c]);
    }
  }

  /** The rows that are still to be drawn: what bounds the recursion, whatever the parent codes say. */
  ghost function Hidden(d: Drawing): set<nat>
  {
    set i: nat | i < |d.isShow| && !d.isShow[i]
  }

  /** Drawing a row alone starts its subtree. */
  lemma DrewItem(t: Data, d: Drawing, item: nat, level: nat, parent: int)
    requires MayDraw(t, d, item, level, parent)
    ensures Drew(t, d, Appended(d, item, level, t.HasChild(item), parent), item, level, |d.tbody| + 1)
  {
    AppendWalked(t, d, item, level, parent);
  }

  /** Closed entries stay closed while more is drawn. */
  lemma StillClosed(t: Data, d1: Drawing, d2: Drawing, from: nat)
    requires |d1.isShow| == |d2.isShow| == |t.rows| && d1.tbody <= d2.tbody
    requires forall i: nat :: i < |t.rows| && d1.isShow[i] ==> d2.isShow[i]
    requires Closed(t, d1, from) && Closed(t, d2, |d1.tbody|)
    ensures Closed(t, d2, from)
  {
    forall k | from <= k < |d2.tbody| ensures ChildrenShown(t, d2, k) {
      if k < |d1.tbody| {
        assert ChildrenShown(t, d1, k) && d2.tbody[k] == d1.tbody[k];
      }
    }
  }

  lemma GrewChild(t: Data, d0: Drawing, d1: Drawing, d2: Drawing, item: nat, level: nat, child: nat)
    requires |d0.isShow| == |t.rows| && Grew(t, d0, d1, item, level) && Grew(t, d1, d2, child, level + 1)
    ensures Grew(t, d0, d2, item, level)
  {
  }

  lemma NewBelowNewChild(t: Data, s0: seq<bool>, s1: seq<bool>, s2: seq<bool>, item: nat, child: nat)
    requires |s0| == |s1| == |s2| == |t.rows| && item < |t.rows| && !s0[item] && t.Child(child, item)
    requires forall i: nat :: i < |t.rows| && s0[i] ==> s1[i]
    requires NewBelowNew(t, s0, s1, item) && NewBelowNew(t, s1, s2, child)
    ensures NewBelowNew(t, s0, s2, item)
  {
    forall i: nat | i < |t.rows| && s2[i] && !s0[i] && i != item ensures exists p: nat :: t.Child(i, p) && !s0[p] {
      if !s1[i] && i != child {
        var p: nat :| t.Child(i, p) && !s1[p];
        assert !s0[p];
      }
    }
  }

  /** Drawing the subtree of a child continues the subtree of its parent. */
  lemma DrewChild(t: Data, d0: Drawing, d1: Drawing, d2: Drawing, item: nat, level: nat, child: nat)
    requires |d0.isShow| == |t.rows| && item < |t.rows| && !d0.isShow[item]
    requires Drew(t, d0, d1, item, level, |d0.tbody| + 1)
    requires t.Child(child, item) && Drew(t, d1, d2, child, level + 1, |d1.tbody|)
    ensures Drew(t, d0, d2, item, level, |d0.tbody| + 1)
  {
    StillClosed(t, d1, d2, |d0.tbody| + 1);
    GrewChild(t, d0, d1, d2, item, level, child);
    NewBelowNewChild(t, d0.isShow, d1.isShow, d2.isShow, item, child);
  }

  /** While one child's subtree is drawn, the other children of the same row wait. */
  lemma SiblingWaits(t: Data, d1: Drawing, d2: Drawing, item: nat, child: nat, sibling: nat, level: nat)
    requires t.UniqueCodes() && |d1.isShow| == |t.rows| && item < |t.rows| && d1.isShow[item]
    requires t.Child(sibling, item) && sibling != child && !d1.isShow[sibling]
    requires Drew(t, d1, d2, child, level, |d1.tbody|)
    ensures !d2.isShow[sibling]
  {
  }

  ghost predicate Grouped(t: Data, allData: map<string, seq<nat>>, n: nat)
    requires n <= |t.rows|
  {
    forall b :: (b in allData <==> t.Members(b, n) != []) && (b in allData ==> allData[b] == t.Members(b, n))
  }

  lemma NothingGrouped(t: Data)
    ensures Grouped(t, map[], 0)
  {
  }

  lemma GroupOneMore(t: Data, allData: map<string, seq<nat>>, i: nat)
    requires i < |t.rows| && Grouped(t, allData, i)
    ensures var b := t.Bucket(i);
            Grouped(t, allData[b := (if b in allData then allData[b] else []) + [i]], i + 1)
  {
    var b := t.Bucket(i);
    assert (if b in allData then allData[b] else []) == t.Members(b, i);
  }

  class TreeTable {
    const t: Data
    var allData: map<string, seq<nat>>
    var isShow: seq<bool>
    var tbody: seq<Entry>
    ghost var above: seq<int>
    ghost var at: map<nat, nat>

    constructor (t: Data)
      ensures this.t == t
    {
      this.t := t;
      allData, isShow, tbody, above, at := map[], [], [], [], map[];
    }

    ghost function Now(): Drawing
      reads this
    {
      Drawing(isShow, tbody, above, at)
    }

    /** formatData: group the rows and mark them undrawn. */
    method FormatData()
      modifies this`allData, this`isShow
      ensures Grouped(t, allData, |t.rows|)
      ensures |isShow| == |t.rows| && forall i :: 0 <= i < |isShow| ==> !isShow[i]
    {
      allData, isShow := map[], [];
      NothingGrouped(t);
      for i := 0 to |t.rows|
        invariant |isShow| == i && forall j :: 0 <= j < i ==> !isShow[j]
        invariant Grouped(t, allData, i)
      {
        isShow := isShow + [false];
        PushRow(i);
      }
    }

    /** Push a row to the root list or to the list of its parent code, creating the list if need be. */
    method PushRow(i: nat)
      requires i < |t.rows| && Grouped(t, allData, i)
      modifies this`allData
      ensures Grouped(t, allData, i + 1)
    {
      GroupOneMore(t, allData, i);
      var bucket := if t.IsRoot(i) then ROOTS else BucketOf(t.Text(t.rows[i].parent));
      assert bucket == t.Bucket(i);
      allData := allData[bucket := (if bucket in allData then allData[bucket] else []) + [i]];
    }

    /** renderRow, and appending the row. */
    method RenderRow(item: nat, expandable: bool, level: nat, ghost parent: int)
      requires item < |isShow|
      modifies this`isShow, this`tbody, this`above, this`at
      ensures Now() == Appended(old(Now()), item, level, expandable, parent)
    {
      isShow := isShow[item := true];
      at := at[item := |tbody|];
      tbody := tbody + [Entry(item, level, expandable)];
      above := above + [parent];
    }

    /** The success callback of load: it ends for any parent codes, cyclic ones included, and renders
        every row exactly once. */
    method Load() returns (ghost rooted: nat)
      requires t.UniqueCodes()
      modifies this
      ensures Rendered(t, Now(), rooted)
    {
      tbody, above, at := [], [], map[];
      FormatData();
      var roots := if ROOTS in allData then allData[ROOTS] else [];
      DrawRoots(roots);
      rooted := |tbody|;
      ghost var d1 := Now();
      Sweep();
      SweepRenders(t, d1, Now(), roots);
    }

    /** The loop over the root list. */
    method DrawRoots(roots: seq<nat>)
      requires t.UniqueCodes() && Grouped(t, allData, |t.rows|)
      requires roots == t.Members(ROOTS, |t.rows|)
      requires |isShow| == |t.rows| && (forall i :: 0 <= i < |isShow| ==> !isShow[i]) && tbody == [] && above == []
      modifies this`isShow, this`tbody, this`above, this`at
      ensures RootsDrawn(t, Now(), roots, |roots|)
    {
      RootsAreMembers(t, roots);
      assert forall m :: 0 <= m < |roots| ==> roots[m] in roots;
      var n := 0;
      while n < |roots|
        invariant 0 <= n <= |roots|
        invariant RootsDrawn(t, Now(), roots, n)
      {
        ghost var d1 := Now();
        RootMayFollow(t, d1, roots, n);
        HandleNode(roots[n], 1, -1);
        AfterRoot(t, d1, Now(), roots, n);
        n := n + 1;
      }
    }

    /** The last loop of the callback: show the rows that no root reaches. */
    method Sweep()
      requires OnceEach(t, Now()) && |above| == |tbody|
      modifies this`isShow, this`tbody, this`above, this`at
      ensures Swept(t, old(Now()), Now(), |t.rows|) && RestFlat(Now(), |old(tbody)|)
    {
      for i := 0 to |t.rows|
        invariant Swept(t, old(Now()), Now(), i)
      {
        if !isShow[i] {
          SweepOne(t, old(Now()), Now(), i);
          RenderRow(i, false, 1, -1);
        } else {
          SweepNone(t, old(Now()), Now(), i);
        }
      }
    }

    /** handleNode: draw a row and, recursively, everything below it. */
    method HandleNode(item: nat, level: nat, ghost parent: int)
      requires t.UniqueCodes() && Grouped(t, allData, |t.rows|)
      requires MayDraw(t, Now(), item, level, parent)
      modifies this`isShow, this`tbody, this`above, this`at
      ensures Drew(t, old(Now()), Now(), item, level, |old(tbody)|)
      decreases Hidden(Now()), 1
    {
      ghost var d0 := Now();
      var code := BucketOf(t.Text(t.rows[item].code));
      var list := if code in allData then allData[code] else [];
      assert list == t.Members(code, |t.rows|);
      RenderRow(item, code in allData, level, parent);
      HandleChildren(item, level, list, d0, parent);
    }

    /** The loop of handleNode over a row's children. */
    method HandleChildren(item: nat, level: nat, list: seq<nat>, ghost d0: Drawing, ghost parent: int)
      requires t.UniqueCodes() && Grouped(t, allData, |t.rows|)
      requires MayDraw(t, d0, item, level, parent) && IsListOf(t, list, item)
      requires Now() == Appended(d0, item, level, list != [], parent)
      modifies this`isShow, this`tbody, this`above, this`at
      ensures Drew(t, d0, Now(), item, level, |d0.tbody|)
      decreases Hidden(d0), 0
    {
      BeginNode(t, d0, item, level, parent, list);
      for n := 0 to |list|
        invariant Progress(t, d0, Now(), item, level, list, n)
      {
        ghost var d1 := Now();
        ChildMayFollow(t, d0, d1, item, level, list, n);
        HandleNode(list[n], level + 1, |d0.tbody|);
        AfterChild(t, d0, d1, Now(), item, level, list, n);
      }
      Finished(t, d0, Now(), item, level, list);
    }
  }

  // ---- loading

  /** The subtrees of the first `n` roots. */
  ghost predicate RootsDrawn(t: Data, d: Drawing, list: seq<nat>, n: nat)
  {
    && list == t.Members(ROOTS, |t.rows|)
    && Walked(t, d)
    && Closed(t, d, 0)
    && (forall m :: 0 <= m < |list| ==> list[m] < |t.rows| && d.isShow[list[m]] == (m < n))
  }

  lemma RootsAreMembers(t: Data, list: seq<nat>)
    requires list == t.Members(ROOTS, |t.rows|)
    ensures forall i: nat :: i in list <==> i < |t.rows| && t.IsRoot(i)
    ensures forall k, l :: 0 <= k < l < |list| ==> list[k] < list[l]
  {
    t.MembersAre(ROOTS, |t.rows|);
    t.MembersInOrder(ROOTS, |t.rows|);
    forall i: nat | i < |t.rows| ensures t.Bucket(i) == ROOTS <==> t.IsRoot(i) {
      BucketsDiffer(t.Text(t.rows[i].parent), "");
    }
  }

  lemma RootMayFollow(t: Data, d: Drawing, list: seq<nat>, n: nat)
    requires RootsDrawn(t, d, list, n) && n < |list|
    ensures MayDraw(t, d, list[n], 1, -1)
  {
    RootsAreMembers(t, list);
    assert list[n] in list;
    forall i: nat | i < |t.rows| && d.isShow[i] && t.Bucket(i) == t.Bucket(list[n]) ensures i < list[n] {
      BucketsDiffer(t.Text(t.rows[i].parent), "");
      assert i in list;
      var m :| 0 <= m < |list| && list[m] == i;
    }
  }

  lemma AfterRoot(t: Data, d1: Drawing, d2: Drawing, list: seq<nat>, n: nat)
    requires RootsDrawn(t, d1, list, n) && n < |list| && Drew(t, d1, d2, list[n], 1, |d1.tbody|)
    ensures RootsDrawn(t, d2, list, n + 1)
  {
    RootsWait(t, d1.isShow, d2.isShow, list, n);
    StillClosed(t, d1, d2, 0);
  }

  /** While one root's subtree is drawn, the later roots wait. */
  lemma RootsWait(t: Data, before: seq<bool>, after: seq<bool>, list: seq<nat>, n: nat)
    requires |before| == |after| == |t.rows| && n < |list| && list == t.Members(ROOTS, |t.rows|)
    requires forall m :: n <= m < |list| ==> list[m] < |t.rows| && !before[list[m]]
    requires NewBelowNew(t, before, after, list[n])
    ensures forall m :: n < m < |list| ==> !after[list[m]]
  {
    RootsAreMembers(t, list);
    forall m | n < m < |list| ensures !after[list[m]] {
      assert list[m] in list && list[n] < list[m];
    }
  }

  /** What was drawn from the roots is rooted, at its depth. */
  lemma {:induction false} DrawnIsRooted(t: Data, d: Drawing, k: nat)
    requires |d.above| == |d.tbody| && (forall j :: 0 <= j < |d.tbody| ==> Placed(t, d, j)) && k < |d.tbody|
    ensures 1 <= d.tbody[k].level && t.Rooted(d.tbody[k].row, d.tbody[k].level - 1)
  {
    assert Placed(t, d, k);
    if 0 <= d.above[k] {
      var up := d.tbody[d.above[k]];
      DrawnIsRooted(t, d, d.above[k]);
      t.BelowRooted(d.tbody[k].row, up.row, up.level - 1);
    }
  }

  /** What is rooted is shown, when roots are and, with a row, the rows below it. */
  lemma {:induction false} RootedIsShown(t: Data, isShow: seq<bool>, i: nat, n: nat)
    requires |isShow| == |t.rows| && t.Rooted(i, n)
    requires forall r: nat :: r < |t.rows| && t.IsRoot(r) ==> isShow[r]
    requires forall c: nat, p: nat {:trigger t.Child(c, p)} :: t.Child(c, p) && isShow[p] ==> isShow[c]
    ensures isShow[i]
    decreases n
  {
    if n > 0 {
      var p := t.AboveRooted(i, n);
      RootedIsShown(t, isShow, p, n - 1);
    }
  }

  lemma RootedIsDrawn(t: Data, d: Drawing, list: seq<nat>, i: nat, n: nat)
    requires RootsDrawn(t, d, list, |list|) && t.Rooted(i, n)
    ensures d.isShow[i]
  {
    forall r: nat | r < |t.rows| && t.IsRoot(r) ensures d.isShow[r] {
      RootsAreMembers(t, list);
      assert r in list;
    }
    forall c: nat, p: nat | t.Child(c, p) && d.isShow[p] ensures d.isShow[c] {
      assert ChildrenShown(t, d, d.at[p]);
    }
    RootedIsShown(t, d.isShow, i, n);
  }

  /** The sweep so far: `d` extends the drawing `d1` of the rooted rows by the undrawn rows before `i`. */
  ghost predicate Swept(t: Data, d1: Drawing, d: Drawing, i: nat)
    requires |d1.isShow| == |t.rows|
  {
    && OnceEach(t, d)
    && |d.above| == |d.tbody|
    && d1.tbody <= d.tbody && d1.above <= d.above
    && (forall j: nat :: j < |t.rows| ==> d.isShow[j] == (d1.isShow[j] || j < i))
    && (forall k :: |d1.tbody| <= k < |d.tbody| ==>
          d.tbody[k].level == 1 && !d.tbody[k].expandable && !d1.isShow[d.tbody[k].row] && d.tbody[k].row < i)
    && (forall k, l :: |d1.tbody| <= k < l < |d.tbody| ==> d.tbody[k].row < d.tbody[l].row)
  }

  lemma SweepOne(t: Data, d1: Drawing, d: Drawing, i: nat)
    requires |d1.isShow| == |t.rows| && i < |t.rows| && Swept(t, d1, d, i) && !d.isShow[i]
    ensures Swept(t, d1, Appended(d, i, 1, false, -1), i + 1)
  {
    AppendOnce(t, d, i, 1, false, -1);
  }

  lemma SweepNone(t: Data, d1: Drawing, d: Drawing, i: nat)
    requires |d1.isShow| == |t.rows| && i < |t.rows| && Swept(t, d1, d, i) && d.isShow[i]
    ensures Swept(t, d1, d, i + 1)
  {
  }

  /** Every row once. */
  ghost predicate Permutes(t: Data, d: Drawing)
  {
    && |d.tbody| == |t.rows| == |d.above|
    && (forall k :: 0 <= k < |d.tbody| ==> d.tbody[k].row < |t.rows|)
    && (forall k, l :: 0 <= k < l < |d.tbody| ==> d.tbody[k].row != d.tbody[l].row)
  }

  /** The rows below a root come first, in depth-first order: at their depth, after their parent with
      only its subtree in between, siblings in data order, with an expander if they have children. */
  ghost predicate RootedFirst(t: Data, d: Drawing, rooted: nat)
    requires Permutes(t, d)
  {
    && rooted <= |d.tbody|
    && (forall k, n: nat :: 0 <= k < |d.tbody| && t.Rooted(d.tbody[k].row, n) ==>
          k < rooted && d.tbody[k].level == n + 1)
    && (forall k :: 0 <= k < rooted ==> Placed(t, d, k) && d.tbody[k].expandable == t.HasChild(d.tbody[k].row))
    && (forall k, l {:trigger t.Bucket(d.tbody[k].row), t.Bucket(d.tbody[l].row)} ::
          0 <= k < l < rooted && t.Bucket(d.tbody[k].row) == t.Bucket(d.tbody[l].row)
          ==> d.tbody[k].row < d.tbody[l].row)
  }

  /** The other rows follow, flat and in data order. */
  ghost predicate RestFlat(d: Drawing, rooted: nat)
  {
    && (forall k :: rooted <= k < |d.tbody| ==> d.tbody[k].level == 1 && !d.tbody[k].expandable)
    && (forall k, l :: rooted <= k < l < |d.tbody| ==> d.tbody[k].row < d.tbody[l].row)
  }

  ghost predicate Rendered(t: Data, d: Drawing, rooted: nat)
  {
    Permutes(t, d) && RootedFirst(t, d, rooted) && RestFlat(d, rooted)
  }

  lemma {:induction false} AtMost(s: seq<nat>, n: nat)
    requires forall k :: 0 <= k < |s| ==> s[k] < n
    requires forall k, l :: 0 <= k < l < |s| ==> s[k] != s[l]
    ensures |s| <= n
  {
    if s != [] {
      assert s[0] < n;
      if j :| 0 <= j < |s| && s[j] == n - 1 {
        AtMost(s[..j] + s[j + 1..], n - 1);
      } else {
        AtMost(s, n - 1);
      }
    }
  }

  lemma AsManyAsRows(t: Data, d: Drawing)
    requires OnceEach(t, d) && forall i :: 0 <= i < |d.isShow| ==> d.isShow[i]
    ensures |d.tbody| == |t.rows|
  {
    AtMost(seq(|d.tbody|, k requires 0 <= k < |d.tbody| => d.tbody[k].row), |t.rows|);
    AtMost(seq(|t.rows|, i requires 0 <= i < |t.rows| => d.at[i]), |d.tbody|);
  }

  /** The entry of a row that was drawn before the sweep is where it was. */
  lemma StillThere(t: Data, d1: Drawing, d: Drawing, k: nat)
    requires OnceEach(t, d1) && Swept(t, d1, d, |t.rows|) && k < |d.tbody|
    requires d.tbody[k].row < |t.rows| && d1.isShow[d.tbody[k].row]
    ensures k < |d1.tbody| && d1.tbody[k] == d.tbody[k]
  {
    var l := d1.at[d.tbody[k].row];
    assert d1.tbody[l] == d.tbody[l];
    SameEntry(t, d, l, k);
  }

  lemma LevelIsDepth(t: Data, d: Drawing, k: nat, n: nat)
    requires t.UniqueCodes() && Walked(t, d) && k < |d.tbody| && t.Rooted(d.tbody[k].row, n)
    ensures d.tbody[k].level == n + 1
  {
    DrawnIsRooted(t, d, k);
    t.OneDepth(d.tbody[k].row, n, d.tbody[k].level - 1);
  }

  lemma RootedAtDepth(t: Data, d1: Drawing, d: Drawing, list: seq<nat>, k: nat, n: nat)
    requires t.UniqueCodes() && RootsDrawn(t, d1, list, |list|) && Swept(t, d1, d, |t.rows|)
    requires k < |d.tbody| && t.Rooted(d.tbody[k].row, n)
    ensures k < |d1.tbody| && d.tbody[k].level == n + 1
  {
    RootedIsDrawn(t, d1, list, d.tbody[k].row, n);
    StillThere(t, d1, d, k);
    LevelIsDepth(t, d1, k, n);
  }

  lemma SameEntry(t: Data, d: Drawing, k: nat, l: nat)
    requires OnceEach(t, d) && k < |d.tbody| && l < |d.tbody| && d.tbody[k].row == d.tbody[l].row
    ensures k == l
  {
  }

  lemma StillPlaced(t: Data, d1: Drawing, d: Drawing, k: nat)
    requires |d1.tbody| == |d1.above| && |d.tbody| == |d.above| && d1.tbody <= d.tbody && d1.above <= d.above
    requires k < |d1.tbody| && Placed(t, d1, k)
    ensures Placed(t, d, k)
  {
  }

  lemma SweepRenders(t: Data, d1: Drawing, d: Drawing, list: seq<nat>)
    requires t.UniqueCodes() && RootsDrawn(t, d1, list, |list|) && Swept(t, d1, d, |t.rows|)
    ensures Permutes(t, d) && RootedFirst(t, d, |d1.tbody|)
  {
    AsManyAsRows(t, d);
    forall k, n: nat | 0 <= k < |d.tbody| && t.Rooted(d.tbody[k].row, n)
      ensures k < |d1.tbody| && d.tbody[k].level == n + 1
    {
      RootedAtDepth(t, d1, d, list, k, n);
    }
    forall k | 0 <= k < |d1.tbody|
      ensures Placed(t, d, k) && d.tbody[k].expandable == t.HasChild(d.tbody[k].row)
    {
      assert Placed(t, d1, k) && d.tbody[k] == d1.tbody[k];
      StillPlaced(t, d1, d, k);
    }
  }

  /** The subtree of `item` up to its first `n` children. */
  ghost predicate Progress(t: Data, d0: Drawing, d: Drawing, item: nat, level: nat, list: seq<nat>, n: nat)
  {
    && |d0.isShow| == |t.rows| && IsListOf(t, list, item) && !d0.isShow[item]
    && Drew(t, d0, d, item, level, |d0.tbody| + 1)
    && (forall m :: 0 <= m < |list| ==> list[m] < |t.rows| && d.isShow[list[m]] == (m < n))
  }

  /** `list` is the bucket of the rows below `item`. */
  ghost predicate IsListOf(t: Data, list: seq<nat>, item: nat)
  {
    item < |t.rows| && list == t.Members(BucketOf(t.Text(t.rows[item].code)), |t.rows|)
  }

  lemma ListHoldsChildren(t: Data, list: seq<nat>, item: nat)
    requires IsListOf(t, list, item)
    ensures forall c: nat :: t.Child(c, item) <==> c in list
    ensures forall k, l :: 0 <= k < l < |list| ==> list[k] < list[l]
    ensures (list != []) == t.HasChild(item)
  {
    t.ChildrenBucket(item);
    t.MembersAre(BucketOf(t.Text(t.rows[item].code)), |t.rows|);
    t.MembersInOrder(BucketOf(t.Text(t.rows[item].code)), |t.rows|);
    if list != [] {
      assert list[0] in list;
    }
  }

  lemma BeginNode(t: Data, d: Drawing, item: nat, level: nat, parent: int, list: seq<nat>)
    requires t.UniqueCodes() && MayDraw(t, d, item, level, parent) && IsListOf(t, list, item)
    ensures Progress(t, d, Appended(d, item, level, list != [], parent), item, level, list, 0)
    ensures Hidden(Appended(d, item, level, list != [], parent)) < Hidden(d)
  {
    ListHoldsChildren(t, list, item);
    UndrawnChildren(t, d, item);
    DrewItem(t, d, item, level, parent);
    assert item in Hidden(d);
    forall m | 0 <= m < |list| ensures list[m] < |t.rows| && !d.isShow[list[m]] && list[m] != item {
      assert list[m] in list;
    }
  }

  lemma AfterChild(t: Data, d0: Drawing, d1: Drawing, d2: Drawing, item: nat, level: nat, list: seq<nat>, n: nat)
    requires t.UniqueCodes() && n < |list| && Progress(t, d0, d1, item, level, list, n)
    requires Drew(t, d1, d2, list[n], level + 1, |d1.tbody|)
    ensures Progress(t, d0, d2, item, level, list, n + 1)
  {
    ListHoldsChildren(t, list, item);
    assert list[n] in list;
    DrewChild(t, d0, d1, d2, item, level, list[n]);
    forall m | n < m < |list| ensures !d2.isShow[list[m]] {
      assert list[m] in list;
      SiblingWaits(t, d1, d2, item, list[n], list[m], level + 1);
    }
  }

  lemma AllChildrenShown(t: Data, d0: Drawing, d1: Drawing, item: nat, level: nat, list: seq<nat>)
    requires Progress(t, d0, d1, item, level, list, |list|)
    ensures forall c: nat :: t.Child(c, item) ==> d1.isShow[c]
  {
    ListHoldsChildren(t, list, item);
    forall c: nat | t.Child(c, item) ensures d1.isShow[c] {
      assert c in list;
    }
  }

  lemma ItemCloses(t: Data, d0: Drawing, d1: Drawing, item: nat, level: nat)
    requires |d0.isShow| == |t.rows| && Drew(t, d0, d1, item, level, |d0.tbody| + 1)
    requires forall c: nat :: t.Child(c, item) ==> d1.isShow[c]
    ensures Drew(t, d0, d1, item, level, |d0.tbody|)
  {
    forall k | |d0.tbody| <= k < |d1.tbody| ensures ChildrenShown(t, d1, k) {
    }
  }

  /** When all children have been drawn, the row and everything below it has been. */
  lemma Finished(t: Data, d0: Drawing, d1: Drawing, item: nat, level: nat, list: seq<nat>)
    requires Progress(t, d0, d1, item, level, list, |list|)
    ensures Drew(t, d0, d1, item, level, |d0.tbody|)
  {
    AllChildrenShown(t, d0, d1, item, level, list);
    ItemCloses(t, d0, d1, item, level);
  }

  lemma ChildMayFollow(t: Data, d0: Drawing, d1: Drawing, item: nat, level: nat, list: seq<nat>, n: nat)
    requires n < |list| && Progress(t, d0, d1, item, level, list, n)
    ensures MayDraw(t, d1, list[n], level + 1, |d0.tbody|)
    ensures Hidden(d1) < Hidden(d0)
  {
    assert item in Hidden(d0) && item !in Hidden(d1);
    ListHoldsChildren(t, list, item);
    t.ChildrenBucket(item);
    assert list[n] in list;
    forall i: nat | i < |t.rows| && d1.isShow[i] && t.Bucket(i) == t.Bucket(list[n]) ensures i < list[n] {
      assert i in list;
      var m :| 0 <= m < |list| && list[m] == i;
    }
  }
}
