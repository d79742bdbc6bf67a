// Values shared by every module: optional results, the relational MAX and the
// byte-wise text order that SQLite's ORDER BY uses.
module Basics {

  datatype Option<+T> = None | Some(value: T)

  datatype Result<+T> = Ok(value: T) | Err

  type Path = string
  type Hash = string

  // ----- MAX over a column -------------------------------------------------

  lemma {:induction false} MaxExists(s: set<nat>)
    requires s != {}
    ensures exists m :: m in s && forall x | x in s :: x <= m
    decreases |s|
  {
    var y :| y in s;
    var rest := s - {y};
    if rest == {} {
      assert y in s && forall x | x in s :: x == y by { assert s == {y}; }
    } else {
      MaxExists(rest);
      var m :| m in rest && forall x | x in rest :: x <= m;
      var top := if y <= m then m else y;
      forall x | x in s ensures x <= top { assert x == y || x in rest; }
      assert top in s;
    }
  }

  // SELECT COALESCE(MAX(c), 0).
  function MaxOf(s: set<nat>): (m: nat)
    ensures forall x | x in s :: x <= m
    ensures if s == {} then m == 0 else m in s
  {
    if s == {} then 0 else
      MaxExists(s);
      var m :| m in s && forall x | x in s :: x <= m;
      m
  }

  // ----- ORDER BY over text ------------------------------------------------

  predicate TextLess(a: string, b: string) {
    b != [] && (a == [] || a[0] < b[0] || (a[0] == b[0] && TextLess(a[1..], b[1..])))
  }

  // The text that ends first, or is smaller where the two first differ, comes first.
  lemma {:induction false} TextLessMeans(a: string, b: string)
    ensures TextLess(a, b) <==>
            exists k | 0 <= k <= |a| && k < |b| :: a[..k] == b[..k] && (k == |a| || a[k] < b[k])
  {
    forall k | 0 < k <= |a| && k < |b| && a[..k] == b[..k] ensures a[0] == b[0] {
      assert a[..k][0] == b[..k][0];
    }
    if a != [] && b != [] && a[0] == b[0] {
      var x, y := a[1..], b[1..];
      TextLessMeans(x, y);
      if k :| 0 <= k <= |x| && k < |y| && x[..k] == y[..k] && (k == |x| || x[k] < y[k]) {
        assert a[..k + 1] == [a[0]] + x[..k] && b[..k + 1] == [b[0]] + y[..k];
      }
      if k :| 0 <= k <= |a| && k < |b| && a[..k] == b[..k] && (k == |a| || a[k] < b[k]) {
        assert k > 0 && x[..k - 1] == a[..k][1..] && y[..k - 1] == b[..k][1..];
        assert k - 1 == |x| || x[k - 1] < y[k - 1];
      }
    } else if a != [] && b != [] && a[0] < b[0] {
      assert a[..0] == b[..0];
    } else if a == [] && b != [] {
      assert a[..0] == b[..0];
    }
  }

  lemma {:induction false} TextLessTotal(a: string, b: string)
    ensures a == b || TextLess(a, b) || TextLess(b, a)
    ensures !(TextLess(a, b) && TextLess(b, a))
    ensures !TextLess(a, a)
  {
    if a != [] {
      TextLessTotal(a[1..], a[1..]);
      if b != [] && a[0] == b[0] {
        TextLessTotal(a[1..], b[1..]);
        assert a[1..] == b[1..] ==> a == [a[0]] + a[1..] == b;
      }
    }
  }

  lemma {:induction false} TextLessTransitive(a: string, b: string, c: string)
    requires TextLess(a, b) && TextLess(b, c)
    ensures TextLess(a, c)
  {
    if a != [] && a[0] == b[0] == c[0] {
      TextLessTransitive(a[1..], b[1..], c[1..]);
    }
  }

  predicate SortedText(s: seq<string>) {
    forall i, j | 0 <= i < j < |s| :: TextLess(s[i], s[j])
  }

  lemma {:induction false} LeastTextExists(s: set<string>)
    requires s != {}
    ensures exists m :: m in s && forall x | x in s && x != m :: TextLess(m, x)
    decreases |s|
  {
    var y :| y in s;
    var rest := s - {y};
    if rest == {} {
      assert s == {y};
    } else {
      LeastTextExists(rest);
      var m :| m in rest && forall x | x in rest && x != m :: TextLess(m, x);
      TextLessTotal(y, m);
      if TextLess(y, m) {
        forall x | x in s && x != y ensures TextLess(y, x) {
          if x != m { TextLessTransitive(y, m, x); }
        }
      } else {
        assert forall x | x in s && x != m :: TextLess(m, x);
      }
    }
  }

  function LeastText(s: set<string>): (m: string)
    requires s != {}
    ensures m in s && forall x | x in s && x != m :: TextLess(m, x)
  {
    LeastTextExists(s);
    assert forall a, b | a in s && b in s && TextLess(a, b) :: !TextLess(b, a) by {
      forall a, b | a in s && b in s ensures TextLess(a, b) ==> !TextLess(b, a) { TextLessTotal(a, b); }
    }
    var m :| m in s && forall x | x in s && x != m :: TextLess(m, x);
    m
  }

  // SELECT DISTINCT c ... ORDER BY c ASC.
  function SortText(s: set<string>): (r: seq<string>)
    ensures SortedText(r)
    ensures forall x :: x in r <==> x in s
    decreases |s|
  {
    if s == {} then [] else
      var m := LeastText(s);
      var rest := SortText(s - {m});
      assert forall x | x in rest :: x in s && x != m;
      [m] + rest
  }
}
