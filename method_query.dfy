/**
 * MethodQuery: a query for the one method of a type that satisfies filters on
 * its return type, its name and its argument types, the argument types in any
 * order. Every filter builds a new query.
 */
module MethodQueries {
  import opened Java
  import opened Reflection

  /** The most argument types a query accepts: their permutations are tried one by one. */
  const MAX_ARGUMENTS: nat := 8

  /** The method JaCoCo injects into instrumented classes. */
  const JACOCO_INIT: string := "$jacocoInit"

  datatype MethodQuery = MethodQuery(
    clazz: JClass,
    returnType: Option<string>,
    exactMethodName: Option<string>,
    /** A hash set of substrings, listed once each. */
    methodNameContainingSubstrings: seq<string>,
    exactArgTypes: Option<seq<string>>)

  /** The substrings form a set, and no query holds both an exact name and substrings. */
  predicate Valid(q: MethodQuery)
  {
    Distinct(q.methodNameContainingSubstrings)
    && (q.exactMethodName.Some? ==> q.methodNameContainingSubstrings == [])
  }

  /** inType: a query on the type with no filter; a null type is refused. */
  function InType(clazz: Option<JClass>): (r: Result<MethodQuery>)
    ensures r.Err? <==> clazz.None?
    ensures r.Err? ==> r.error == IllegalArgument
    ensures r.Ok? ==> Valid(r.value) && r.value == MethodQuery(clazz.value, None, None, [], None)
  {
    if clazz.None? then Err(IllegalArgument) else Ok(MethodQuery(clazz.value, None, None, [], None))
  }

  /** withReturnType: IllegalStateException once a return type is set, then IllegalArgumentException for null. */
  function WithReturnType(q: MethodQuery, returnTypeToUse: Option<string>): (r: Result<MethodQuery>)
    ensures q.returnType.Some? ==> r == Err(IllegalState)
    ensures q.returnType.None? && returnTypeToUse.None? ==> r == Err(IllegalArgument)
    ensures r.Ok? <==> q.returnType.None? && returnTypeToUse.Some?
    ensures r.Ok? ==> r.value == q.(returnType := returnTypeToUse)
  {
    if q.returnType.Some? then Err(IllegalState)
    else if returnTypeToUse.None? then Err(IllegalArgument)
    else Ok(q.(returnType := returnTypeToUse))
  }

  /** withVoidReturnType: the return type `void`, under the same one-return-type rule. */
  function WithVoidReturnType(q: MethodQuery): (r: Result<MethodQuery>)
    ensures r.Err? <==> q.returnType.Some?
    ensures r.Err? ==> r.error == IllegalState
    ensures r.Ok? ==> r.value == q.(returnType := Some(VOID))
  {
    if q.returnType.Some? then Err(IllegalState) else Ok(q.(returnType := Some(VOID)))
  }

  /** withExactName: IllegalStateException after any name filter, then IllegalArgumentException for a null or empty name. */
  function WithExactName(q: MethodQuery, methodName: Option<string>): (r: Result<MethodQuery>)
    ensures q.exactMethodName.Some? || q.methodNameContainingSubstrings != [] ==> r == Err(IllegalState)
    ensures q.exactMethodName.None? && q.methodNameContainingSubstrings == [] && IsEmpty(methodName) ==> r == Err(IllegalArgument)
    ensures r.Ok? <==> q.exactMethodName.None? && q.methodNameContainingSubstrings == [] && !IsEmpty(methodName)
    ensures r.Ok? ==> r.value == q.(exactMethodName := methodName)
  {
    if q.exactMethodName.Some? then Err(IllegalState)
    else if q.methodNameContainingSubstrings != [] then Err(IllegalState)
    else if IsEmpty(methodName) then Err(IllegalArgument)
    else Ok(q.(exactMethodName := methodName))
  }

  /** withNameContaining: IllegalStateException after an exact name, then IllegalArgumentException for a null or empty substring. */
  function WithNameContaining(q: MethodQuery, methodNameSubstring: Option<string>): (r: Result<MethodQuery>)
    requires Valid(q)
    ensures q.exactMethodName.Some? ==> r == Err(IllegalState)
    ensures q.exactMethodName.None? && IsEmpty(methodNameSubstring) ==> r == Err(IllegalArgument)
    ensures r.Ok? <==> q.exactMethodName.None? && !IsEmpty(methodNameSubstring)
    ensures r.Ok? ==> Valid(r.value) && r.value == q.(methodNameContainingSubstrings := r.value.methodNameContainingSubstrings)
    ensures r.Ok? ==> forall t :: t in r.value.methodNameContainingSubstrings <==>
                        t in q.methodNameContainingSubstrings || Some(t) == methodNameSubstring
  {
    if q.exactMethodName.Some? then Err(IllegalState)
    else if IsEmpty(methodNameSubstring) then Err(IllegalArgument)
    else Ok(q.(methodNameContainingSubstrings := Add(q.methodNameContainingSubstrings, methodNameSubstring.value)))
  }

  /**
   * The argument-type checks shared with ConstructorQuery: IllegalArgumentException
   * for a null collection, for more than MAX_ARGUMENTS types, or for a null type
   * among them; otherwise a copy of the list.
   */
  function CheckArgTypes(argTypes: Option<seq<Option<string>>>): (r: Result<seq<string>>)
    ensures r.Ok? <==> argTypes.Some? && |argTypes.value| <= MAX_ARGUMENTS
                       && forall k | 0 <= k < |argTypes.value| :: argTypes.value[k].Some?
    ensures r.Err? ==> r.error == IllegalArgument
    ensures r.Ok? ==> |r.value| == |argTypes.value| && forall k | 0 <= k < |r.value| :: argTypes.value[k] == Some(r.value[k])
  {
    if argTypes.None? then Err(IllegalArgument)
    else if |argTypes.value| > MAX_ARGUMENTS then Err(IllegalArgument)
    else if exists k | 0 <= k < |argTypes.value| :: argTypes.value[k].None? then Err(IllegalArgument)
    else Ok(seq(|argTypes.value|, k requires 0 <= k < |argTypes.value| => argTypes.value[k].value))
  }

  /** withExactArgTypes: IllegalStateException once argument types are set, then the shared checks. */
  function WithExactArgTypes(q: MethodQuery, argTypes: Option<seq<Option<string>>>): (r: Result<MethodQuery>)
    ensures q.exactArgTypes.Some? ==> r == Err(IllegalState)
    ensures q.exactArgTypes.None? ==> r.Ok? == CheckArgTypes(argTypes).Ok?
    ensures r.Err? && q.exactArgTypes.None? ==> r.error == IllegalArgument
    ensures r.Ok? ==> r.value == q.(exactArgTypes := Some(CheckArgTypes(argTypes).value))
  {
    if q.exactArgTypes.Some? then Err(IllegalState)
    else
      match CheckArgTypes(argTypes)
      case Err(e) => Err(e)
      case Ok(types) => Ok(q.(exactArgTypes := Some(types)))
  }

  /** The filters that do not depend on the argument types: return type, exact name and every substring. */
  predicate FixedFiltersPass(q: MethodQuery, m: JMethod)
  {
    (q.returnType.None? || m.returnType == q.returnType.value)
    && (q.exactMethodName.None? || m.name == q.exactMethodName.value)
    && forall t | t in q.methodNameContainingSubstrings :: Contains(m.name, t)
  }

  /** `withParameters(types)`: the parameter list equals the given one, when one is given. */
  predicate ParametersPass(filter: Option<seq<string>>, m: JMethod)
  {
    filter.None? || m.parameterTypes == filter.value
  }

  /** A method the query finds: every filter passes, the argument types in any order, and it is not JaCoCo's. */
  predicate Matches(q: MethodQuery, m: JMethod)
  {
    FixedFiltersPass(q, m)
    && (q.exactArgTypes.None? || multiset(m.parameterTypes) == multiset(q.exactArgTypes.value))
    && m.name != JACOCO_INIT
  }

  /** getFilterPermutations: the fixed filters alone, or with each ordering of the argument types in turn. */
  function FilterPermutations(q: MethodQuery): (r: seq<Option<seq<string>>>)
    ensures q.exactArgTypes.None? ==> r == [None]
    ensures q.exactArgTypes.Some? ==> |r| == |Permutations(q.exactArgTypes.value)|
    ensures q.exactArgTypes.Some? ==> forall k | 0 <= k < |r| :: r[k] == Some(Permutations(q.exactArgTypes.value)[k])
  {
    if q.exactArgTypes.None? then [None]
    else
      var perms := Permutations(q.exactArgTypes.value);
      seq(|perms|, k requires 0 <= k < |perms| => Some(perms[k]))
  }

  /** Some filter set of the query lets the method's parameters through exactly when they are a rearrangement of the argument types. */
  lemma FilterPermutationsMatch(q: MethodQuery, m: JMethod)
    ensures (exists f | f in FilterPermutations(q) :: ParametersPass(f, m))
        <==> (q.exactArgTypes.None? || multiset(m.parameterTypes) == multiset(q.exactArgTypes.value))
  {
    var filters := FilterPermutations(q);
    if q.exactArgTypes.None? {
      assert None in filters;
    } else {
      var args := q.exactArgTypes.value;
      if f :| f in filters && ParametersPass(f, m) {
        var k :| 0 <= k < |filters| && filters[k] == f;
        PermutationsAreRearrangements(args, Permutations(args)[k]);
      }
      if multiset(m.parameterTypes) == multiset(args) {
        PermutationsAreRearrangements(args, m.parameterTypes);
        var k :| 0 <= k < |Permutations(args)| && Permutations(args)[k] == m.parameterTypes;
        assert ParametersPass(filters[k], m);
      }
    }
  }

  /**
   * The methods `ReflectionUtils.getMethods(clazz, ...)` filters: for an interface
   * its public methods, inherited ones included; for a class the methods it declares.
   */
  function SearchedMethods(c: JClass): seq<JMethod>
  {
    if c.isInterface then c.publicMethods else c.declaredMethods
  }

  /** `matchingMethods.addAll(ReflectionUtils.getMethods(clazz, filters))` for one filter set. */
  method AddMethods(found: seq<JMethod>, q: MethodQuery, filter: Option<seq<string>>) returns (result: seq<JMethod>)
    requires Distinct(found)
    ensures Distinct(result)
    ensures forall m :: m in result <==> m in found || (m in SearchedMethods(q.clazz) && FixedFiltersPass(q, m) && ParametersPass(filter, m))
  {
    var methods := SearchedMethods(q.clazz);
    result := found;
    for i := 0 to |methods|
      invariant Distinct(result)
      invariant forall m :: m in result <==> m in found || (m in methods[..i] && FixedFiltersPass(q, m) && ParametersPass(filter, m))
    {
      if FixedFiltersPass(q, methods[i]) && ParametersPass(filter, methods[i]) {
        result := Add(result, methods[i]);
      }
      assert methods[..i + 1] == methods[..i] + [methods[i]];
    }
    assert methods[..|methods|] == methods;
  }

  /** filterOutTestMethods: everything but JaCoCo's injected method. */
  function FilterOutTestMethods(methods: seq<JMethod>): (r: seq<JMethod>)
    requires Distinct(methods)
    ensures Distinct(r)
    ensures forall m :: m in r <==> m in methods && m.name != JACOCO_INIT
  {
    if methods == [] then []
    else
      var rest := FilterOutTestMethods(methods[1..]);
      assert forall m :: m in methods <==> m == methods[0] || m in methods[1..];
      if methods[0].name == JACOCO_INIT then rest else [methods[0]] + rest
  }

  /** findMethods: the union over every filter set, less JaCoCo's method; exactly the methods the query matches. */
  method FindMethods(q: MethodQuery) returns (found: seq<JMethod>)
    ensures Distinct(found)
    ensures forall m :: m in found <==> m in SearchedMethods(q.clazz) && Matches(q, m)
  {
    var filters := FilterPermutations(q);
    var matching: seq<JMethod> := [];
    for i := 0 to |filters|
      invariant Distinct(matching)
      invariant forall m :: m in matching <==>
        m in SearchedMethods(q.clazz) && FixedFiltersPass(q, m) && exists f | f in filters[..i] :: ParametersPass(f, m)
    {
      matching := AddMethods(matching, q, filters[i]);
      assert filters[..i + 1] == filters[..i] + [filters[i]];
    }
    assert filters[..|filters|] == filters;
    found := FilterOutTestMethods(matching);
    forall m
      ensures m in found <==> m in SearchedMethods(q.clazz) && Matches(q, m)
    {
      FilterPermutationsMatch(q, m);
    }
  }

  /** findMethod: NoMethodFoundException for no match, MultipleMethodsFoundException for more than one, else the match. */
  method FindMethod(q: MethodQuery) returns (r: Result<JMethod>)
    ensures r == Err(NoMethodFound) <==> forall m | m in SearchedMethods(q.clazz) :: !Matches(q, m)
    ensures r == Err(MultipleMethodsFound) <==>
      exists m1, m2 | m1 in SearchedMethods(q.clazz) && m2 in SearchedMethods(q.clazz) :: m1 != m2 && Matches(q, m1) && Matches(q, m2)
    ensures r.Ok? ==> r.value in SearchedMethods(q.clazz) && Matches(q, r.value)
    ensures r.Ok? ==> forall m | m in SearchedMethods(q.clazz) && Matches(q, m) :: m == r.value
  {
    var methods := FindMethods(q);
    if |methods| == 0 {
      return Err(NoMethodFound);
    }
    assert methods[0] in methods;
    if |methods| > 1 {
      assert methods[0] != methods[1] && methods[1] in methods;
      return Err(MultipleMethodsFound);
    }
    assert forall m | m in methods :: m == methods[0];
    return Ok(methods[0]);
  }

  /** Once a return type is set, neither return-type filter can be added again. */
  lemma AtMostOneReturnType(q: MethodQuery, returnTypeToUse: Option<string>)
    requires q.returnType.Some?
    ensures WithReturnType(q, returnTypeToUse) == Err(IllegalState)
    ensures WithVoidReturnType(q) == Err(IllegalState)
  {
  }

  /** Substring filters accumulate: a method must contain every one of them. */
  lemma SubstringsAreConjoined(q: MethodQuery, sub1: string, sub2: string, m: JMethod)
    requires Valid(q) && q.exactMethodName.None? && sub1 != [] && sub2 != []
    ensures WithNameContaining(q, Some(sub1)).Ok?
    ensures WithNameContaining(WithNameContaining(q, Some(sub1)).value, Some(sub2)).Ok?
    ensures var q2 := WithNameContaining(WithNameContaining(q, Some(sub1)).value, Some(sub2)).value;
      FixedFiltersPass(q2, m) <==> FixedFiltersPass(q, m) && Contains(m.name, sub1) && Contains(m.name, sub2)
  {
    var q1 := WithNameContaining(q, Some(sub1)).value;
    var q2 := WithNameContaining(q1, Some(sub2)).value;
    assert sub1 in q2.methodNameContainingSubstrings && sub2 in q2.methodNameContainingSubstrings;
  }
}
