/** Comparing a frozen JSON tree with a runtime one while ignoring what stands under path keys. */
module PathBlanking {

  /** Atoms are compared as they are; numbers and strings are told apart by their representation. */
  datatype Json = Atom(value: string) | Array(items: seq<Json>) | Object(fields: map<string, Json>)

  /** The comparison as the script makes it. */
  predicate EqualExceptPaths(frozen: Json, runtime: Json, allowed: set<string>)
    decreases frozen
  {
    match (frozen, runtime)
    case (Object(f), Object(r)) =>
      f.Keys == r.Keys && forall key :: key in f && key !in allowed ==> EqualExceptPaths(f[key], r[key], allowed)
    case (Array(f), Array(r)) =>
      |f| == |r| && forall i :: 0 <= i < |f| ==> EqualExceptPaths(f[i], r[i], allowed)
    case _ => frozen == runtime
  }

  const BLANK: Json := Atom("")

  /** The tree with every value under an allowed key blanked. */
  function Blanked(tree: Json, allowed: set<string>): Json
    decreases tree
  {
    match tree
    case Atom(_) => tree
    case Array(items) => Array(seq(|items|, i requires 0 <= i < |items| => Blanked(items[i], allowed)))
    case Object(fields) =>
      Object(map key | key in fields :: if key in allowed then BLANK else Blanked(fields[key], allowed))
  }

  /** The script's comparison holds exactly when the two trees are equal after blanking. */
  lemma {:induction false} ComparesBlanked(a: Json, b: Json, allowed: set<string>)
    ensures EqualExceptPaths(a, b, allowed) <==> Blanked(a, allowed) == Blanked(b, allowed)
    decreases a
  {
    match (a, b)
    case (Object(f), Object(r)) =>
      if f.Keys == r.Keys {
        forall key | key in f && key !in allowed
          ensures EqualExceptPaths(f[key], r[key], allowed) <==> Blanked(f[key], allowed) == Blanked(r[key], allowed)
        {
          ComparesBlanked(f[key], r[key], allowed);
        }
        ObjectsBlanked(f, r, allowed);
      } else {
        assert Blanked(a, allowed).fields.Keys == f.Keys && Blanked(b, allowed).fields.Keys == r.Keys;
      }
    case (Array(f), Array(r)) =>
      forall i | 0 <= i < |f| && |f| == |r|
        ensures EqualExceptPaths(f[i], r[i], allowed) <==> Blanked(f[i], allowed) == Blanked(r[i], allowed)
      {
        ComparesBlanked(f[i], r[i], allowed);
      }
      ArraysBlanked(f, r, allowed);
    case _ =>
  }

  lemma {:induction false} ObjectsBlanked(f: map<string, Json>, r: map<string, Json>, allowed: set<string>)
    requires f.Keys == r.Keys
    ensures Blanked(Object(f), allowed) == Blanked(Object(r), allowed) <==>
      forall key :: key in f && key !in allowed ==> Blanked(f[key], allowed) == Blanked(r[key], allowed)
  {
    var x, y := Blanked(Object(f), allowed).fields, Blanked(Object(r), allowed).fields;
    assert forall key :: key in f ==> x[key] == if key in allowed then BLANK else Blanked(f[key], allowed);
    assert forall key :: key in r ==> y[key] == if key in allowed then BLANK else Blanked(r[key], allowed);
    if forall key :: key in f && key !in allowed ==> Blanked(f[key], allowed) == Blanked(r[key], allowed) {
      assert x == y;
    }
  }

  lemma {:induction false} ArraysBlanked(f: seq<Json>, r: seq<Json>, allowed: set<string>)
    ensures Blanked(Array(f), allowed) == Blanked(Array(r), allowed) <==>
      |f| == |r| && forall i :: 0 <= i < |f| ==> Blanked(f[i], allowed) == Blanked(r[i], allowed)
  {
    var x, y := Blanked(Array(f), allowed).items, Blanked(Array(r), allowed).items;
    assert forall i :: 0 <= i < |f| ==> x[i] == Blanked(f[i], allowed);
    assert forall i :: 0 <= i < |r| ==> y[i] == Blanked(r[i], allowed);
    if |f| == |r| && forall i :: 0 <= i < |f| ==> Blanked(f[i], allowed) == Blanked(r[i], allowed) {
      assert x == y;
    }
  }

  /** It is an equivalence relation. */
  lemma {:induction false} IsAnEquivalence(a: Json, b: Json, c: Json, allowed: set<string>)
    ensures EqualExceptPaths(a, a, allowed)
    ensures EqualExceptPaths(a, b, allowed) ==> EqualExceptPaths(b, a, allowed)
    ensures EqualExceptPaths(a, b, allowed) && EqualExceptPaths(b, c, allowed) ==> EqualExceptPaths(a, c, allowed)
  {
    ComparesBlanked(a, a, allowed);
    ComparesBlanked(a, b, allowed);
    ComparesBlanked(b, a, allowed);
    ComparesBlanked(b, c, allowed);
    ComparesBlanked(a, c, allowed);
  }

  /** Allowing more keys never makes equal trees differ. */
  lemma {:induction false} AllowingMoreKeys(a: Json, b: Json, allowed: set<string>, more: set<string>)
    requires allowed <= more && EqualExceptPaths(a, b, allowed)
    ensures EqualExceptPaths(a, b, more)
    decreases a
  {
    match (a, b)
    case (Object(f), Object(r)) =>
      forall key | key in f && key !in more
        ensures EqualExceptPaths(f[key], r[key], more)
      {
        AllowingMoreKeys(f[key], r[key], allowed, more);
      }
    case (Array(f), Array(r)) =>
      forall i | 0 <= i < |f|
        ensures EqualExceptPaths(f[i], r[i], more)
      {
        AllowingMoreKeys(f[i], r[i], allowed, more);
      }
    case _ =>
  }

  /** Without allowed keys blanking changes nothing, so the comparison is plain equality. */
  lemma {:induction false} NothingAllowed(a: Json)
    ensures Blanked(a, {}) == a
    decreases a
  {
    match a
    case Atom(_) =>
    case Array(items) =>
      forall i | 0 <= i < |items|
        ensures Blanked(items[i], {}) == items[i]
      {
        NothingAllowed(items[i]);
      }
      assert Blanked(a, {}).items == items;
    case Object(fields) =>
      forall key | key in fields
        ensures Blanked(fields[key], {}) == fields[key]
      {
        NothingAllowed(fields[key]);
      }
      assert Blanked(a, {}).fields == fields;
  }

  lemma {:induction false} PlainEquality(a: Json, b: Json)
    ensures EqualExceptPaths(a, b, {}) <==> a == b
  {
    ComparesBlanked(a, b, {});
    NothingAllowed(a);
    NothingAllowed(b);
  }

  /** Blanking twice, with any two sets of keys, blanks what either allows. */
  lemma {:induction false} BlankingComposes(a: Json, allowed: set<string>, more: set<string>)
    ensures Blanked(Blanked(a, allowed), more) == Blanked(a, allowed + more)
    decreases a
  {
    match a
    case Atom(_) =>
    case Array(items) =>
      forall i | 0 <= i < |items|
        ensures Blanked(Blanked(items[i], allowed), more) == Blanked(items[i], allowed + more)
      {
        BlankingComposes(items[i], allowed, more);
      }
      assert Blanked(Blanked(a, allowed), more).items == Blanked(a, allowed + more).items;
    case Object(fields) =>
      forall key | key in fields
        ensures Blanked(Blanked(fields[key], allowed), more) == Blanked(fields[key], allowed + more)
      {
        BlankingComposes(fields[key], allowed, more);
      }
      assert Blanked(BLANK, more) == BLANK;
      assert Blanked(Blanked(a, allowed), more).fields == Blanked(a, allowed + more).fields;
  }
}
