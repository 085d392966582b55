/** The emitted list helpers: 1-based lists of bounded capacity over a C array. */
module Lists {

  /** The target's `int` and `unsigned char`: leaving the range is an error. */
  newtype Int = x: int | -0x8000 <= x < 0x8000
  newtype UChar = x: int | 0 <= x < 0x100

  const CEILING: UChar := 128

  datatype Op =
    | Add(v: Int)
    | Delete(i: Int)
    | DeleteAll
    | Insert(i: Int, v: Int)
    | Replace(i: Int, v: Int)

  // ---- what a list is -----------------------------------------------------

  predicate Holds(s: seq<Int>, i: Int) {
    1 <= i as int <= |s|
  }

  function Item(s: seq<Int>, i: Int): Int {
    if Holds(s, i) then s[i as int - 1] else 0
  }

  /** Where an insert lands: its index brought into 1..length+1. */
  function Clamp(i: Int, length: nat): (r: nat)
    ensures 1 <= r <= length + 1
    ensures 1 <= i as int <= length + 1 ==> r == i as int
  {
    if i < 1 then 1 else if i as int > length + 1 then length + 1 else i as int
  }

  function Inserted(s: seq<Int>, at: nat, v: Int): seq<Int>
    requires 1 <= at <= |s| + 1
  {
    s[..at - 1] + [v] + s[at - 1..]
  }

  lemma {:induction false} InsertedIs(s: seq<Int>, at: nat, v: Int, t: seq<Int>)
    requires 1 <= at <= |s| + 1 && |t| == |s| + 1
    requires forall j | 0 <= j < at - 1 :: t[j] == s[j]
    requires t[at - 1] == v
    requires forall j | at <= j < |t| :: t[j] == s[j - 1]
    ensures t == Inserted(s, at, v)
  {
  }

  function Removed(s: seq<Int>, i: nat): seq<Int>
    requires 1 <= i <= |s|
  {
    s[..i - 1] + s[i..]
  }

  function Apply(s: seq<Int>, cap: nat, op: Op): seq<Int> {
    match op
    case Add(v) => if |s| >= cap then s else s + [v]
    case Delete(i) => if Holds(s, i) then Removed(s, i as int) else s
    case DeleteAll => []
    case Insert(i, v) => if |s| >= cap then s else Inserted(s, Clamp(i, |s|), v)
    case Replace(i, v) => if Holds(s, i) then s[i as int - 1 := v] else s
  }

  function Run(s: seq<Int>, cap: nat, ops: seq<Op>): seq<Int>
    decreases ops
  {
    if ops == [] then s else Run(Apply(s, cap, ops[0]), cap, ops[1..])
  }

  // ---- what its operations mean, item by item -----------------------------

  /** A list never outgrows its capacity. */
  lemma {:induction false} StaysBounded(s: seq<Int>, cap: nat, ops: seq<Op>)
    requires |s| <= cap
    ensures |Run(s, cap, ops)| <= cap
    decreases ops
  {
    if ops != [] {
      StaysBounded(Apply(s, cap, ops[0]), cap, ops[1..]);
    }
  }

  /** An insert below capacity lands at the clamped place and moves exactly the tail up. */
  lemma {:induction false} InsertShifts(s: seq<Int>, cap: nat, i: Int, v: Int, j: Int)
    requires |s| <= cap <= CEILING as int
    ensures |s| < cap ==>
              var at, r := Clamp(i, |s|), Apply(s, cap, Insert(i, v));
              |r| == |s| + 1 &&
              Item(r, j) == if j as int < at then Item(s, j) else if j as int == at then v else Item(s, j - 1)
    ensures |s| == cap ==> Apply(s, cap, Insert(i, v)) == s
  {
  }

  /** A delete moves exactly the tail down; out of range it changes nothing. */
  lemma {:induction false} DeleteShifts(s: seq<Int>, cap: nat, i: Int, j: Int)
    requires |s| <= cap <= CEILING as int
    ensures var r := Apply(s, cap, Delete(i));
            Holds(s, i) && j < 0x7FFF ==>
              |r| == |s| - 1 && Item(r, j) == if j < i then Item(s, j) else Item(s, j + 1)
    ensures !Holds(s, i) ==> Apply(s, cap, Delete(i)) == s
  {
  }

  /** An index below the first item inserts before it. */
  lemma {:induction false} InsertBelowIsFirst(s: seq<Int>, cap: nat, i: Int, v: Int)
    requires |s| < cap && i < 1
    ensures Apply(s, cap, Insert(i, v)) == [v] + s
  {
    assert s[..0] == [] && s[0..] == s;
  }

  /** A replacement changes its own item only, and nothing out of range. */
  lemma {:induction false} ReplaceChangesOne(s: seq<Int>, cap: nat, i: Int, v: Int, j: Int)
    requires |s| <= CEILING as int
    ensures var r := Apply(s, cap, Replace(i, v));
            |r| == |s| && Item(r, j) == if j == i && 1 <= i as int <= |s| then v else Item(s, j)
  {
  }

  /** Deleting where an insert landed gives the old list back, unless it was full. */
  lemma {:induction false} DeleteUndoesInsert(s: seq<Int>, cap: nat, i: Int, v: Int)
    requires |s| < cap <= CEILING as int
    ensures Run(s, cap, [Insert(i, v), Delete(Clamp(i, |s|) as Int)]) == s
  {
    var at := Clamp(i, |s|);
    var r := Apply(s, cap, Insert(i, v));
    assert Removed(r, at) == s;
    assert [Insert(i, v), Delete(at as Int)][1..] == [Delete(at as Int)];
    assert Run(r, cap, [Delete(at as Int)]) == Run(Apply(r, cap, Delete(at as Int)), cap, []);
  }

  /** Adding is inserting at any index past the end. */
  lemma {:induction false} AddIsInsertLast(s: seq<Int>, cap: nat, i: Int, v: Int)
    requires |s| <= cap <= CEILING as int
    requires i as int > |s|
    ensures Apply(s, cap, Add(v)) == Apply(s, cap, Insert(i, v))
  {
    if |s| < cap {
      assert s[..|s|] + [v] + s[|s|..] == s + [v];
    }
  }

  // ---- the C helpers ------------------------------------------------------

  class List {
    const a: array<Int>
    var n: UChar
    const cap: UChar

    ghost predicate Valid()
      reads this
    {
      n <= cap && 1 <= cap <= CEILING && a.Length == cap as int
    }

    ghost function Contents(): seq<Int>
      reads this, a
      requires Valid()
    {
      a[..n as int]
    }

    /** A declared list: `values` first, the rest of the array zero. */
    constructor (capacity: UChar, values: seq<Int>)
      requires 1 <= capacity <= CEILING && |values| <= capacity as int
      ensures Valid() && fresh(a) && cap == capacity && Contents() == values
    {
      a := new Int[capacity as int](k requires 0 <= k < capacity as int => if k < |values| then values[k] else 0);
      n := |values| as UChar;
      cap := capacity;
    }

    method Get(i: Int) returns (v: Int)
      requires Valid()
      ensures v == Item(Contents(), i)
    {
      if i < 1 || i > n as Int {
        return 0;
      }
      return a[(i - 1) as int];
    }

    method Set(i: Int, v: Int)
      requires Valid()
      modifies a
      ensures Valid() && Contents() == Apply(old(Contents()), cap as int, Replace(i, v))
    {
      if i < 1 || i > n as Int {
        return;
      }
      a[(i - 1) as int] := v;
    }

    method AddItem(v: Int)
      requires Valid()
      modifies this`n, a
      ensures Valid() && Contents() == Apply(old(Contents()), cap as int, Add(v))
    {
      if n >= cap {
        return;
      }
      a[n as int] := v;
      n := n + 1;
    }

    method Del(i: Int)
      requires Valid()
      modifies this`n, a
      ensures Valid() && Contents() == Apply(old(Contents()), cap as int, Delete(i))
    {
      if i < 1 || i > n as Int {
        return;
      }
      ghost var s := a[..];
      var k := i as UChar;
      while k < n
        invariant n == old(n) && i as UChar <= k <= n
        invariant forall j | i as int <= j < k as int :: a[j - 1] == s[j]
        invariant forall j | 0 <= j < i as int - 1 || k as int <= j + 1 <= a.Length :: a[j] == s[j]
      {
        a[(k - 1) as int] := a[k as int];
        k := k + 1;
      }
      n := n - 1;
      assert Contents() == Removed(old(Contents()), i as int);
    }

    method Ins(i0: Int, v: Int)
      requires Valid()
      modifies this`n, a
      ensures Valid() && Contents() == Apply(old(Contents()), cap as int, Insert(i0, v))
    {
      hide Inserted;
      if n >= cap {
        return;
      }
      var i := i0;
      if i < 1 {
        i := 1;
      }
      if i > n as Int + 1 {
        i := n as Int + 1;
      }
      ghost var s := a[..];
      var k := n;
      while k > (i - 1) as UChar
        invariant n == old(n) && (i - 1) as UChar <= k <= n
        invariant forall j | k as int < j <= n as int :: a[j] == s[j - 1]
        invariant forall j | 0 <= j <= k as int :: a[j] == s[j]
      {
        a[k as int] := a[(k - 1) as int];
        k := k - 1;
      }
      n := n + 1;
      a[(i - 1) as int] := v;
      InsertedIs(old(Contents()), i as int, v, Contents());
    }

    method Has(v: Int) returns (found: bool)
      requires Valid()
      ensures found <==> v in Contents()
    {
      var k: UChar := 0;
      while k < n
        invariant k <= n
        invariant v !in a[..k as int]
      {
        if a[k as int] == v {
          return true;
        }
        k := k + 1;
      }
      return false;
    }

    method Perform(op: Op)
      requires Valid()
      modifies this`n, a
      ensures Valid() && Contents() == Apply(old(Contents()), cap as int, op)
    {
      match op
      case Add(v) => AddItem(v);
      case Delete(i) => Del(i);
      case DeleteAll => n := 0;
      case Insert(i, v) => Ins(i, v);
      case Replace(i, v) => Set(i, v);
    }

    /** Over any program's operations the array and its length byte simulate the list. */
    method PerformAll(ops: seq<Op>)
      requires Valid()
      modifies this`n, a
      ensures Valid() && Contents() == Run(old(Contents()), cap as int, ops)
    {
      for k := 0 to |ops|
        invariant Valid()
        invariant Run(Contents(), cap as int, ops[k..]) == Run(old(Contents()), cap as int, ops)
      {
        assert ops[k..][0] == ops[k] && ops[k..][1..] == ops[k + 1..];
        Perform(ops[k]);
      }
    }
  }
}
