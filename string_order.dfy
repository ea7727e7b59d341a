/**
 * The natural order of Java strings (`String.compareTo`): the first
 * differing UTF-16 code unit decides, and a proper prefix comes first. A
 * `TreeSet<String>` iterates its elements in this order.
 */
module StringOrder {

  /** Where a character falls in UTF-16 code-unit order. A character below
      U+D800 is one code unit of its own value; a supplementary character
      is a surrogate pair, whose first unit lies in D800-DBFF, so it sorts
      after those; a character from U+E000 to U+FFFF is one unit above every
      surrogate, so it sorts after all of them. */
  function UnitKey(c: char): (k: int)
    ensures c as int < 0xD800 ==> k == c as int
    ensures 0x10000 <= c as int ==> k == c as int
    ensures 0xE000 <= c as int < 0x10000 ==> k == c as int + 0x110000
  {
    if c as int < 0xD800 || 0x10000 <= c as int then c as int else c as int + 0x110000
  }

  /** Different characters never share a key. */
  lemma UnitKeyInjective(c: char, d: char)
    requires c != d
    ensures UnitKey(c) != UnitKey(d)
  {
    assert c as int != d as int;
  }

  /** `a` comes strictly before `b`. Two different characters never have
      code-unit sequences one of which is a prefix of the other, so the
      first differing character decides, by its key. */
  predicate Less(a: string, b: string)
    decreases |a|
  {
    if a == [] then b != []
    else if b == [] then false
    else if a[0] != b[0] then UnitKey(a[0]) < UnitKey(b[0])
    else Less(a[1..], b[1..])
  }

  /** A supplementary character (U+1F600, units D83D DE00) sorts before
      U+FFFD, although its code point is larger. */
  lemma SurrogatesBeforeHighPlane()
    ensures Less("\U{1F600}", "\U{FFFD}") && !Less("\U{FFFD}", "\U{1F600}")
  {
  }

  lemma {:induction false} LessIrreflexive(a: string)
    ensures !Less(a, a)
    decreases |a|
  {
    if a != [] {
      LessIrreflexive(a[1..]);
    }
  }

  lemma {:induction false} LessTransitive(a: string, b: string, c: string)
    requires Less(a, b) && Less(b, c)
    ensures Less(a, c)
    decreases |a|
  {
    if a != [] && b != [] && c != [] && a[0] == b[0] == c[0] {
      LessTransitive(a[1..], b[1..], c[1..]);
    }
  }

  lemma {:induction false} LessTotal(a: string, b: string)
    requires a != b
    ensures Less(a, b) || Less(b, a)
    decreases |a|
  {
    if a != [] && b != [] && a[0] == b[0] {
      assert a == [a[0]] + a[1..] && b == [b[0]] + b[1..];
      LessTotal(a[1..], b[1..]);
    } else if a != [] && b != [] {
      UnitKeyInjective(a[0], b[0]);
    }
  }

  /** Of two different strings exactly one comes first. */
  lemma LessAsymmetric(a: string, b: string)
    requires Less(a, b)
    ensures !Less(b, a) && a != b
  {
    LessIrreflexive(a);
    if Less(b, a) {
      LessTransitive(a, b, a);
    }
  }

  /** No element of `s` comes before `m`. */
  predicate IsLeast(m: string, s: set<string>)
  {
    m in s && forall x :: x in s ==> !Less(x, m)
  }

  lemma {:induction false} LeastExists(s: set<string>)
    requires s != {}
    ensures exists m :: IsLeast(m, s)
    decreases |s|
  {
    var y :| y in s;
    var rest := s - {y};
    if rest == {} {
      LessIrreflexive(y);
      assert s == {y};
      assert IsLeast(y, s);
    } else {
      LeastExists(rest);
      var m :| IsLeast(m, rest);
      if Less(y, m) {
        LessIrreflexive(y);
        forall x | x in s ensures !Less(x, y) {
          if x != y && Less(x, y) {
            assert x in rest;
            LessTransitive(x, y, m);
          }
        }
        assert IsLeast(y, s);
      } else {
        assert IsLeast(m, s);
      }
    }
  }

  /** A set has at most one least string. */
  lemma LeastUnique(s: set<string>)
    ensures forall m, n :: IsLeast(m, s) && IsLeast(n, s) ==> m == n
  {
    forall m, n | IsLeast(m, s) && IsLeast(n, s) ensures m == n {
      if m != n {
        LessTotal(m, n);
      }
    }
  }

  /** The first string of a nonempty set. */
  function Least(s: set<string>): (m: string)
    requires s != {}
    ensures IsLeast(m, s)
  {
    LeastExists(s);
    LeastUnique(s);
    var m :| IsLeast(m, s);
    m
  }

  /** Each string comes strictly before the next. */
  predicate Ascending(s: seq<string>)
  {
    forall i, j :: 0 <= i < j < |s| ==> Less(s[i], s[j])
  }

  /** The strings of the set in ascending order: the iteration order of a
      `TreeSet<String>` holding them. */
  function Sorted(s: set<string>): (r: seq<string>)
    ensures Ascending(r)
    ensures |r| == |s|
    ensures forall x :: x in r <==> x in s
    decreases |s|
  {
    if s == {} then []
    else
      var m := Least(s);
      var rest := Sorted(s - {m});
      assert forall x :: x in rest ==> Less(m, x) by {
        forall x | x in rest ensures Less(m, x) {
          LessTotal(m, x);
        }
      }
      [m] + rest
  }
}
