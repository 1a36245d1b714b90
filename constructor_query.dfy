/**
 * ConstructorQuery: a query for the one public constructor of a class whose
 * parameter types are the given ones, in any order.
 */
module ConstructorQueries {
  import opened Java
  import opened Reflection
  import MethodQueries

  datatype ConstructorQuery = ConstructorQuery(clazz: JClass, exactArgTypes: Option<seq<string>>)

  /** inClass: a query on the class with no filter; a null class is refused. */
  function InClass(clazz: Option<JClass>): (r: Result<ConstructorQuery>)
    ensures r.Err? <==> clazz.None?
    ensures r.Err? ==> r.error == IllegalArgument
    ensures r.Ok? ==> r.value.clazz == clazz.value && r.value.exactArgTypes.None?
  {
    if clazz.None? then Err(IllegalArgument) else Ok(ConstructorQuery(clazz.value, None))
  }

  /** withExactArgTypes: IllegalStateException once argument types are set, then MethodQuery's checks. */
  function WithExactArgTypes(q: ConstructorQuery, argTypes: Option<seq<Option<string>>>): (r: Result<ConstructorQuery>)
    ensures q.exactArgTypes.Some? ==> r == Err(IllegalState)
    ensures q.exactArgTypes.None? ==> r.Ok? == MethodQueries.CheckArgTypes(argTypes).Ok?
    ensures r.Err? && q.exactArgTypes.None? ==> r.error == IllegalArgument
    ensures r.Ok? ==> r.value == ConstructorQuery(q.clazz, Some(MethodQueries.CheckArgTypes(argTypes).value))
  {
    if q.exactArgTypes.Some? then Err(IllegalState)
    else
      match MethodQueries.CheckArgTypes(argTypes)
      case Err(e) => Err(e)
      case Ok(types) => Ok(ConstructorQuery(q.clazz, Some(types)))
  }

  /** withNoArgs: `withExactArgTypes(emptyList())`. */
  function WithNoArgs(q: ConstructorQuery): (r: Result<ConstructorQuery>)
    ensures r.Err? <==> q.exactArgTypes.Some?
    ensures r.Err? ==> r.error == IllegalState
    ensures r.Ok? ==> r.value == ConstructorQuery(q.clazz, Some([]))
  {
    WithExactArgTypes(q, Some([]))
  }

  /** A constructor the query finds: public, with the argument types in some order when a list is given. */
  predicate Matches(q: ConstructorQuery, c: JConstructor)
  {
    c.isPublic && (q.exactArgTypes.None? || multiset(c.parameterTypes) == multiset(q.exactArgTypes.value))
  }

  /** `Class.getConstructor(types)`: the public constructor with exactly these parameter types, if there is one. */
  function GetConstructor(clazz: JClass, types: seq<string>): (r: Option<JConstructor>)
    ensures r.Some? <==> JConstructor(types, true) in clazz.constructors
    ensures r.Some? ==> r.value == JConstructor(types, true)
  {
    if JConstructor(types, true) in clazz.constructors then Some(JConstructor(types, true)) else None
  }

  /**
   * findConstructors: every public constructor without a filter; the public
   * no-argument constructor, if any, for an empty list; otherwise the public
   * constructor found for each ordering of the list.
   */
  method FindConstructors(q: ConstructorQuery) returns (found: seq<JConstructor>)
    ensures Distinct(found)
    ensures forall c :: c in found <==> c in q.clazz.constructors && Matches(q, c)
  {
    var constructors := q.clazz.constructors;
    found := [];
    if q.exactArgTypes.None? {
      for i := 0 to |constructors|
        invariant Distinct(found)
        invariant forall c :: c in found <==> c in constructors[..i] && c.isPublic
      {
        if constructors[i].isPublic {
          found := Add(found, constructors[i]);
        }
        assert constructors[..i + 1] == constructors[..i] + [constructors[i]];
      }
      assert constructors[..|constructors|] == constructors;
    } else if q.exactArgTypes.value == [] {
      var noArgs := GetConstructor(q.clazz, []);
      if noArgs.Some? {
        found := [noArgs.value];
      }
      forall c | c in constructors && Matches(q, c)
        ensures c == JConstructor([], true)
      {
        assert |c.parameterTypes| == |multiset(c.parameterTypes)| == 0;
      }
    } else {
      var args := q.exactArgTypes.value;
      var perms := Permutations(args);
      for i := 0 to |perms|
        invariant Distinct(found)
        invariant forall c :: c in found <==> c in constructors && c.isPublic && c.parameterTypes in perms[..i]
      {
        var ctor := GetConstructor(q.clazz, perms[i]);
        if ctor.Some? {
          found := Add(found, ctor.value);
        }
        assert perms[..i + 1] == perms[..i] + [perms[i]];
      }
      assert perms[..|perms|] == perms;
      forall c
        ensures c in found <==> c in constructors && Matches(q, c)
      {
        PermutationsAreRearrangements(args, c.parameterTypes);
      }
    }
  }

  /** findConstructor: an exception for no match and for more than one, else the match. */
  method FindConstructor(q: ConstructorQuery) returns (r: Result<JConstructor>)
    ensures r == Err(NoConstructorFound) <==> forall c | c in q.clazz.constructors :: !Matches(q, c)
    ensures r == Err(MultipleConstructorsFound) <==>
      exists c1, c2 | c1 in q.clazz.constructors && c2 in q.clazz.constructors :: c1 != c2 && Matches(q, c1) && Matches(q, c2)
    ensures r.Ok? ==> r.value in q.clazz.constructors && Matches(q, r.value)
    ensures r.Ok? ==> forall c | c in q.clazz.constructors && Matches(q, c) :: c == r.value
  {
    var constructors := FindConstructors(q);
    if |constructors| == 0 {
      return Err(NoConstructorFound);
    }
    assert constructors[0] in constructors;
    if |constructors| > 1 {
      assert constructors[0] != constructors[1] && constructors[1] in constructors;
      return Err(MultipleConstructorsFound);
    }
    assert forall c | c in constructors :: c == constructors[0];
    return Ok(constructors[0]);
  }

  /** An empty list finds only a public no-argument constructor. */
  lemma EmptyListMeansNoArguments(q: ConstructorQuery, c: JConstructor)
    requires q.exactArgTypes == Some([])
    ensures Matches(q, c) <==> c == JConstructor([], true)
  {
    if Matches(q, c) {
      assert |c.parameterTypes| == |multiset(c.parameterTypes)| == 0;
    }
  }
}
