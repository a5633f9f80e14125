/** Names in the order a sorted set lists them: character by character, a name before any it begins. */
module Names {

  /** Whether `a` comes strictly before `b`. */
  predicate Less(a: string, b: string) {
    if b == "" then false
    else if a == "" then true
    else if a[0] != b[0] then a[0] < b[0]
    else Less(a[1..], b[1..])
  }

  /** The `i`th characters are the first two names differ in, and say that `a` comes first. */
  ghost predicate FirstDiffers(a: string, b: string, i: nat) {
    i < |a| && i < |b| && a[..i] == b[..i] && a[i] as int < b[i] as int
  }

  lemma {:induction false} LessDiffers(a: string, b: string)
    requires Less(a, b) && !(a < b)
    ensures exists i: nat :: FirstDiffers(a, b, i)
  {
    assert a == [a[0]] + a[1..] && b == [b[0]] + b[1..];
    if a[0] == b[0] {
      LessDiffers(a[1..], b[1..]);
      var i: nat :| FirstDiffers(a[1..], b[1..], i);
      assert a[..i + 1] == [a[0]] + a[1..][..i] && b[..i + 1] == [b[0]] + b[1..][..i];
      assert FirstDiffers(a, b, i + 1);
    } else {
      assert FirstDiffers(a, b, 0);
    }
  }

  lemma {:induction false} DiffersLess(a: string, b: string, i: nat)
    requires FirstDiffers(a, b, i)
    ensures Less(a, b)
  {
    if i > 0 {
      assert a[0] == a[..i][0] == b[..i][0] == b[0];
      assert a[1..][..i - 1] == a[..i][1..] && b[1..][..i - 1] == b[..i][1..];
      DiffersLess(a[1..], b[1..], i - 1);
    }
  }

  /** The first character two names differ in says which is first; where one begins the other, it is. */
  lemma LessMeans(a: string, b: string)
    ensures Less(a, b) <==> a < b || exists i: nat :: FirstDiffers(a, b, i)
  {
    if Less(a, b) && !(a < b) { LessDiffers(a, b); }
    if a < b { PrefixIsLess(a, b); }
    if i: nat :| FirstDiffers(a, b, i) { DiffersLess(a, b, i); }
  }

  lemma {:induction false} NotBeforeItself(a: string)
    ensures !Less(a, a)
  {
    if a != "" { NotBeforeItself(a[1..]); }
  }

  lemma {:induction false} LessIsTotal(a: string, b: string)
    ensures Less(a, b) || Less(b, a) || a == b
    ensures !(Less(a, b) && Less(b, a)) && !Less(a, a)
  {
    NotBeforeItself(a);
    if a != "" && b != "" && a[0] == b[0] {
      LessIsTotal(a[1..], b[1..]);
      assert a == [a[0]] + a[1..] && b == [b[0]] + b[1..];
    }
  }

  lemma {:induction false} LessIsTransitive(a: string, b: string, c: string)
    requires Less(a, b) && Less(b, c)
    ensures Less(a, c)
  {
    if a != "" && a[0] == b[0] == c[0] {
      LessIsTransitive(a[1..], b[1..], c[1..]);
    }
  }

  /** Not coming before is transitive too. */
  lemma NotLessIsTransitive(a: string, b: string, c: string)
    requires !Less(b, a) && !Less(c, b)
    ensures !Less(c, a)
  {
  }

  /** A name comes before any it begins. */
  lemma {:induction false} PrefixIsLess(a: string, b: string)
    requires a < b
    ensures Less(a, b)
  {
    if a != "" {
      PrefixIsLess(a[1..], b[1..]);
    }
  }

  /** Listed in order, each once. */
  ghost predicate Ascending(names: seq<string>) {
    forall i, j :: 0 <= i < j < |names| ==> Less(names[i], names[j])
  }

  /** The first of some names. */
  lemma {:induction false} HasFirst(names: set<string>) returns (first: string)
    requires names != {}
    ensures first in names && forall name | name in names && name != first :: Less(first, name)
    decreases |names|
  {
    first :| first in names;
    var others := names - {first};
    if others != {} {
      var next := HasFirst(others);
      LessIsTotal(first, next);
      if Less(next, first) {
        first := next;
      } else {
        forall name | name in names && name != first ensures Less(first, name) {
          if name != next { LessIsTransitive(first, next, name); }
        }
      }
    }
  }

  /** Lists a set of names in order. */
  method InOrder(names: set<string>) returns (listed: seq<string>)
    ensures Ascending(listed) && forall name :: name in listed <==> name in names
  {
    listed := [];
    var rest := names;
    while rest != {}
      invariant Ascending(listed)
      invariant forall name :: name in listed <==> name in names && name !in rest
      invariant rest <= names && forall done, due | done in listed && due in rest :: Less(done, due)
      decreases rest
    {
      ghost var first := HasFirst(rest);
      forall name | name in rest && forall other | other in rest && other != name :: Less(name, other)
        ensures name == first
      {
        LessIsTotal(name, first);
      }
      var next :| next in rest && forall other | other in rest && other != next :: Less(next, other);
      listed, rest := listed + [next], rest - {next};
    }
  }
}
