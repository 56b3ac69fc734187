/** Names and logical paths.

A name is one component of a logical path; a path is the sequence of its
components.  Names are ordered as the repository orders strings, by code point. */
module Paths {

  datatype Option<+T> = None | Some(value: T)

  /** An entry name is one path component, and not one of the reserved two. */
  predicate ValidName(s: string) {
    s != "" && '/' !in s && '\\' !in s && s != "." && s != ".."
  }

  type Name = s: string | ValidName(s) witness "a"

  type Path = seq<Name>

  // ---- The order of strings -------------------------------------------------

  /** Lexicographic order by code point. */
  predicate LexLess(a: string, b: string) {
    if b == "" then false
    else if a == "" then true
    else a[0] < b[0] || (a[0] == b[0] && LexLess(a[1..], b[1..]))
  }

  const BASE := 1114113.0

  /** A string read as a fraction in base `BASE`, one digit a code point. */
  function Fraction(s: string): (r: real)
    ensures 0.0 <= r < 1.0
  {
    if s == "" then 0.0 else (s[0] as int as real + 1.0 + Fraction(s[1..])) / BASE
  }

  /** The fraction of a string is its place in lexicographic order, so order
      arguments about strings become arithmetic. */
  lemma {:induction false} FractionIsOrder(a: string, b: string)
    ensures LexLess(a, b) <==> Fraction(a) < Fraction(b)
    ensures Fraction(a) == Fraction(b) ==> a == b
  {
    if a != "" && b != "" {
      FractionIsOrder(a[1..], b[1..]);
      assert a == [a[0]] + a[1..] && b == [b[0]] + b[1..];
    }
  }

  function Place(s: string): real {
    Fraction(s)
  }

  predicate Lt(a: string, b: string) {
    Place(a) < Place(b)
  }

  lemma LtIsLexicographic(a: string, b: string)
    ensures Lt(a, b) <==> LexLess(a, b)
  {
    FractionIsOrder(a, b);
  }

  /** Different strings have different places. */
  lemma PlaceInjective()
    ensures forall a: string, b: string :: Place(a) == Place(b) ==> a == b
  {
    forall a: string, b: string { FractionIsOrder(a, b); }
  }

  // ---- Paths below a directory ----------------------------------------------

  /** A path below `dir` lies at or below the child its next component names. */
  lemma BelowDirectory(dir: Path, p: Path, n: Name)
    requires dir < p
    ensures p == dir + [n] <==> p[|dir|..] == [n]
    ensures dir + [n] < p <==> |p| > |dir| + 1 && p[|dir|] == n
  {
    assert p == dir + p[|dir|..];
    if |p| > |dir| + 1 && p[|dir|] == n {
      assert p[..|dir| + 1] == dir + [n];
    }
    if dir + [n] < p {
      assert p[|dir|] == (dir + [n])[|dir|];
    }
  }

  // ---- Paths as strings -----------------------------------------------------

  /** The slash-separated form of a path. */
  function Join(p: Path): string {
    if p == [] then ""
    else if |p| == 1 then p[0]
    else p[0] + "/" + Join(p[1..])
  }

  /** Names hold no slash, so the text before the first slash is unambiguous. */
  lemma {:induction false} FirstSlash(a: string, b: string, s: string, t: string)
    requires '/' !in a && '/' !in b && (t == "" || t[0] == '/')
    requires a + "/" + s <= b + t
    ensures a == b && "/" + s <= t
  {
    var left, right := a + "/" + s, b + t;
    assert left[|a|] == '/' && right[|a|] == '/';
    assert forall i :: 0 <= i < |a| ==> left[i] == a[i] && a[i] in a;
    assert forall i :: 0 <= i < |b| ==> right[i] == b[i] && b[i] in b;
    assert forall i :: 0 <= i < |t| ==> right[|b| + i] == t[i];
    assert |a| == |b|;
    assert left == right[..|left|];
    assert a == left[..|a|] && b == right[..|b|];
    assert "/" + s == left[|a|..] && t == right[|b|..];
  }

  /** `startswith(f"{q}/")` on joined paths is "strictly below `q`" on components. */
  lemma {:induction false} JoinPrefix(q: Path, p: Path)
    requires q != []
    ensures Join(q) + "/" <= Join(p) <==> q < p
  {
    if p == [] {
    } else {
      var t := if |p| == 1 then "" else "/" + Join(p[1..]);
      assert Join(p) == p[0] + t;
      if |q| == 1 {
        if Join(q) + "/" <= Join(p) {
          assert q[0] + "/" + "" <= p[0] + t;
          FirstSlash(q[0], p[0], "", t);
        }
        if q < p {
          assert Join(p) == Join(q) + "/" + Join(p[1..]);
        }
      } else {
        var s := Join(q[1..]) + "/";
        assert Join(q) + "/" == q[0] + "/" + s;
        if Join(q) + "/" <= Join(p) {
          FirstSlash(q[0], p[0], s, t);
          assert |p| > 1;
          assert s <= Join(p[1..]) by {
            assert s == ("/" + s)[1..] && Join(p[1..]) == t[1..];
          }
          JoinPrefix(q[1..], p[1..]);
          assert q == [q[0]] + q[1..] && p == [p[0]] + p[1..];
        }
        if q < p {
          assert q[0] == p[0] && q[1..] < p[1..];
          JoinPrefix(q[1..], p[1..]);
        }
      }
    }
  }

  // ---- Sets of names in order -----------------------------------------------

  ghost predicate IsLeast(n: Name, s: set<Name>) {
    n in s && forall k :: k in s ==> !Lt(k, n)
  }

  lemma {:induction false} LeastExists(s: set<Name>)
    requires s != {}
    ensures exists n :: IsLeast(n, s)
  {
    var a :| a in s;
    var rest := s - {a};
    if rest == {} {
      assert s == {a};
      assert IsLeast(a, s);
    } else {
      LeastExists(rest);
      var n :| IsLeast(n, rest);
      assert s == rest + {a};
      assert IsLeast(if Lt(a, n) then a else n, s);
    }
  }

  predicate Ascending(names: seq<Name>) {
    forall i, j :: 0 <= i < j < |names| ==> Lt(names[i], names[j])
  }

  /** The members of a set of names in ascending order. */
  method SortedNames(s: set<Name>) returns (r: seq<Name>)
    ensures Ascending(r)
    ensures forall n :: n in r <==> n in s
  {
    r := [];
    var rest := s;
    while rest != {}
      invariant rest <= s && Ascending(r)
      invariant forall n :: n in r <==> n in s && n !in rest
      invariant forall n, k :: n in r && k in rest ==> Lt(n, k)
      decreases |rest|
    {
      LeastExists(rest);
      assert exists n :: n in rest && forall k :: k in rest ==> !Lt(k, n) by {
        var least :| IsLeast(least, rest);
        assert least in rest;
      }
      var n :| n in rest && forall k :: k in rest ==> !Lt(k, n);
      PlaceInjective();
      r, rest := r + [n], rest - {n};
    }
  }
}
