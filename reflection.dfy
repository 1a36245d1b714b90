/**
 * What the test infrastructure reads of a compiled class through reflection,
 * as plain values, together with Guava's `Collections2.permutations` and the
 * duplicate-free lists that stand for Java's hash sets.
 */
module Reflection {
  import opened Java

  /**
   * A method: the class or interface that declares it, its name, its return type and
   * its parameter types, by type name. Like `Method.equals`, two methods with one
   * signature declared by different types are different methods.
   */
  datatype JMethod = JMethod(declaringClass: string, name: string, returnType: string, parameterTypes: seq<string>)

  /** A constructor: its parameter types and whether it is public. */
  datatype JConstructor = JConstructor(parameterTypes: seq<string>, isPublic: bool)

  /**
   * A class as reflection describes it. `assignableTo` lists every type the
   * class can be assigned to, itself included; `publicMethods` are the methods
   * `getMethods()` lists, inherited ones included.
   */
  datatype JClass = JClass(
    name: string,
    simpleName: string,
    packageName: string,
    isInterface: bool,
    superclass: Option<string>,
    assignableTo: set<string>,
    declaredFieldTypes: seq<string>,
    declaredMethods: seq<JMethod>,
    publicMethods: seq<JMethod>,
    constructors: seq<JConstructor>)

  /** The names `getMethods()` lists, one per method, overloads included. */
  function PublicMethodNames(c: JClass): (names: seq<string>)
    ensures |names| == |c.publicMethods|
    ensures forall k | 0 <= k < |names| :: names[k] == c.publicMethods[k].name
  {
    seq(|c.publicMethods|, k requires 0 <= k < |c.publicMethods| => c.publicMethods[k].name)
  }

  /** `Class.isAssignableFrom`: a value of class `c` can be used where `t` is expected. */
  predicate IsAssignableFrom(t: JClass, c: JClass)
  {
    t.name in c.assignableTo
  }

  /** The fully-qualified name of `void.class`. */
  const VOID: string := "void"

  /** No element listed twice: a Java set, in some iteration order. */
  predicate Distinct<T(==)>(s: seq<T>)
  {
    forall i, j | 0 <= i < j < |s| :: s[i] != s[j]
  }

  /** `Set.add`: append the element unless it is already there. */
  function Add<T(==,!new)>(s: seq<T>, x: T): (r: seq<T>)
    requires Distinct(s)
    ensures Distinct(r)
    ensures forall y :: y in r <==> y in s || y == x
  {
    if x in s then s else s + [x]
  }

  /** Every way of inserting `x` into `p`, at positions 0 to |p|. */
  function Insertions<T>(x: T, p: seq<T>): (r: seq<seq<T>>)
    ensures |r| == |p| + 1
    ensures forall j | 0 <= j <= |p| :: r[j] == p[..j] + [x] + p[j..]
  {
    seq(|p| + 1, j requires 0 <= j <= |p| => p[..j] + [x] + p[j..])
  }

  /** The insertions of `x` into each list of `ps`, in order. */
  function InsertEverywhere<T>(x: T, ps: seq<seq<T>>): seq<seq<T>>
  {
    if ps == [] then [] else Insertions(x, ps[0]) + InsertEverywhere(x, ps[1..])
  }

  /**
   * `Collections2.permutations(list)`: every ordering of the list. With repeated
   * elements some orderings occur more than once, which none of its users notices.
   */
  function Permutations<T>(s: seq<T>): seq<seq<T>>
  {
    if s == [] then [[]] else InsertEverywhere(s[0], Permutations(s[1..]))
  }

  /** A member of `InsertEverywhere(x, ps)` is some list of `ps` with `x` inserted somewhere. */
  lemma {:induction false} FromInsertEverywhere<T>(x: T, ps: seq<seq<T>>, q: seq<T>) returns (i: int, j: int)
    requires q in InsertEverywhere(x, ps)
    ensures 0 <= i < |ps| && 0 <= j <= |ps[i]| && q == ps[i][..j] + [x] + ps[i][j..]
  {
    var first := Insertions(x, ps[0]);
    if q in first {
      var k :| 0 <= k < |first| && first[k] == q;
      i, j := 0, k;
    } else {
      assert q in InsertEverywhere(x, ps[1..]);
      var i', j' := FromInsertEverywhere(x, ps[1..], q);
      i, j := i' + 1, j';
    }
  }

  /** Conversely, every such insertion is a member. */
  lemma {:induction false} IntoInsertEverywhere<T>(x: T, ps: seq<seq<T>>, i: int, j: int)
    requires 0 <= i < |ps| && 0 <= j <= |ps[i]|
    ensures ps[i][..j] + [x] + ps[i][j..] in InsertEverywhere(x, ps)
  {
    if i == 0 {
      assert Insertions(x, ps[0])[j] == ps[i][..j] + [x] + ps[i][j..];
    } else {
      IntoInsertEverywhere(x, ps[1..], i - 1, j);
    }
  }

  /** Inserting an element anywhere adds it to the multiset. */
  lemma InsertionMultiset<T>(p: seq<T>, x: T, j: int)
    requires 0 <= j <= |p|
    ensures multiset(p[..j] + [x] + p[j..]) == multiset(p) + multiset{x}
  {
    assert p == p[..j] + p[j..];
  }

  /** Removing the element at `j` takes it out of the multiset. */
  lemma RemovalMultiset<T>(q: seq<T>, j: int)
    requires 0 <= j < |q|
    ensures multiset(q[..j] + q[j + 1..]) == multiset(q) - multiset{q[j]}
    ensures q == (q[..j] + q[j + 1..])[..j] + [q[j]] + (q[..j] + q[j + 1..])[j..]
  {
    assert q == q[..j] + [q[j]] + q[j + 1..];
  }

  /** Every permutation has the elements of the list. */
  lemma {:induction false} PermutationIsRearrangement<T>(s: seq<T>, q: seq<T>)
    requires q in Permutations(s)
    ensures multiset(q) == multiset(s)
    decreases |s|
  {
    if s != [] {
      var i, j := FromInsertEverywhere(s[0], Permutations(s[1..]), q);
      var p := Permutations(s[1..])[i];
      PermutationIsRearrangement(s[1..], p);
      InsertionMultiset(p, s[0], j);
      assert s == [s[0]] + s[1..];
    }
  }

  /** Every rearrangement of the list is one of its permutations. */
  lemma {:induction false} RearrangementIsPermutation<T>(s: seq<T>, q: seq<T>)
    requires multiset(q) == multiset(s)
    ensures q in Permutations(s)
    decreases |s|
  {
    if s == [] {
      assert |q| == |multiset(q)| == 0;
    } else {
      var x, rest := s[0], s[1..];
      assert s == [x] + rest;
      assert x in multiset(q);
      var j :| 0 <= j < |q| && q[j] == x;
      var p := q[..j] + q[j + 1..];
      RemovalMultiset(q, j);
      RearrangementIsPermutation(rest, p);
      var i :| 0 <= i < |Permutations(rest)| && Permutations(rest)[i] == p;
      IntoInsertEverywhere(x, Permutations(rest), i, j);
    }
  }

  /** The permutations of a list are exactly the lists with the same elements, counted with multiplicity. */
  lemma PermutationsAreRearrangements<T>(s: seq<T>, q: seq<T>)
    ensures q in Permutations(s) <==> multiset(q) == multiset(s)
  {
    if q in Permutations(s) {
      PermutationIsRearrangement(s, q);
    }
    if multiset(q) == multiset(s) {
      RearrangementIsPermutation(s, q);
    }
  }
}
