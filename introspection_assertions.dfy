/**
 * IntrospectionAssertions: test assertions about the shape of a class — its
 * superclass, its interfaces, its fields' types, its method names — and about
 * whether a test field is a mock.
 */
module Introspection {
  import opened Java
  import opened Reflection

  /** The outcome of an assertion: it passes, or it fails the test. */
  datatype Verdict = Passed | Failed

  /** The type name of Mockito's `@Mock` annotation. */
  const MOCK: string := "org.mockito.Mock"

  /** A field of a test class, with the type names of its annotations. */
  datatype JField = JField(typeName: string, annotationTypes: seq<string>)

  /** The name of a class reference, null staying null. */
  function NameOf(c: Option<JClass>): Option<string>
  {
    if c.Some? then Some(c.value.name) else None
  }

  /**
   * assertDirectlyExtends: `getSuperclass()` equals the expected class. A null
   * expectation passes exactly for a class without superclass (an interface, Object).
   */
  function AssertDirectlyExtends(subclass: JClass, expectedSuperclass: Option<JClass>): (v: Verdict)
    ensures expectedSuperclass.Some? ==> (v == Passed <==> subclass.superclass == Some(expectedSuperclass.value.name))
    ensures expectedSuperclass.None? ==> (v == Passed <==> subclass.superclass.None?)
  {
    if subclass.superclass == NameOf(expectedSuperclass) then Passed else Failed
  }

  /** A class directly extends at most one class: two passing expectations name the same class, or are both null. */
  lemma AtMostOneDirectSuperclass(subclass: JClass, first: Option<JClass>, second: Option<JClass>)
    requires AssertDirectlyExtends(subclass, first) == Passed
    requires AssertDirectlyExtends(subclass, second) == Passed
    ensures first.Some? <==> second.Some?
    ensures first.Some? ==> first.value.name == second.value.name
  {
  }

  /** assertImplementsInterface: the target is an interface, the subtype is not, and the subtype is assignable to it. */
  function AssertImplementsInterface(subtype: JClass, implementedInterface: JClass): (v: Verdict)
    ensures v == Passed <==> implementedInterface.isInterface && !subtype.isInterface && IsAssignableFrom(implementedInterface, subtype)
  {
    if !implementedInterface.isInterface then Failed
    else if subtype.isInterface then Failed
    else if !IsAssignableFrom(implementedInterface, subtype) then Failed
    else Passed
  }

  /** assertDoesNotImplementInterface: the target is an interface, the subtype is not, and the subtype is not assignable to it. */
  function AssertDoesNotImplementInterface(subtype: JClass, notImplementedInterface: JClass): (v: Verdict)
    ensures v == Passed <==> notImplementedInterface.isInterface && !subtype.isInterface && !IsAssignableFrom(notImplementedInterface, subtype)
  {
    if !notImplementedInterface.isInterface then Failed
    else if subtype.isInterface then Failed
    else if IsAssignableFrom(notImplementedInterface, subtype) then Failed
    else Passed
  }

  /** Both interface assertions fail whenever the subtype is itself an interface or the target is not one. */
  lemma InterfaceAssertionsNeedAClassAndAnInterface(subtype: JClass, target: JClass)
    requires subtype.isInterface || !target.isInterface
    ensures AssertImplementsInterface(subtype, target) == Failed
    ensures AssertDoesNotImplementInterface(subtype, target) == Failed
  {
  }

  /** For a class and an interface, exactly one of the two interface assertions passes. */
  lemma InterfaceAssertionsAreComplementary(subtype: JClass, target: JClass)
    requires !subtype.isInterface && target.isInterface
    ensures (AssertImplementsInterface(subtype, target) == Passed) != (AssertDoesNotImplementInterface(subtype, target) == Passed)
  {
  }

  /** `List.remove(Object)`: the first occurrence of `x` taken out, if there is one. */
  function RemoveFirst(s: seq<string>, x: string): (r: seq<string>)
    ensures x in s ==> multiset(r) == multiset(s) - multiset{x}
    ensures x !in s ==> r == s
    ensures |r| == if x in s then |s| - 1 else |s|
  {
    if s == [] then []
    else if s[0] == x then
      assert s == [x] + s[1..];
      s[1..]
    else
      assert s == [s[0]] + s[1..];
      [s[0]] + RemoveFirst(s[1..], x)
  }

  /** One round of the loop: the next expected name is either still there, and is used up, or missing for good. */
  lemma ContainsAllStep(found: seq<string>, done: seq<string>, remaining: seq<string>, name: string)
    requires multiset(done) <= multiset(found)
    requires multiset(remaining) == multiset(found) - multiset(done)
    ensures name in remaining ==> multiset(done + [name]) <= multiset(found)
    ensures name in remaining ==> multiset(RemoveFirst(remaining, name)) == multiset(found) - multiset(done + [name])
    ensures name !in remaining ==> !(multiset(done + [name]) <= multiset(found))
  {
    assert multiset(done + [name]) == multiset(done) + multiset{name};
    if name !in remaining {
      assert multiset(remaining)[name] == 0;
      assert multiset(done + [name])[name] == multiset(done)[name] + 1;
    }
  }

  /** A prefix has no more of any element than the whole list. */
  lemma PrefixMultiset(s: seq<string>, i: int)
    requires 0 <= i <= |s|
    ensures multiset(s[..i]) <= multiset(s)
  {
    assert s == s[..i] + s[i..];
  }

  /**
   * The loop shared by the two "contains" assertions: each expected name must
   * still be in the list of found names, and is then removed from it once. So
   * the assertion passes exactly when the expected names, counted with
   * multiplicity, are among the found ones.
   */
  method AssertContainsAll(found: seq<string>, expected: seq<string>) returns (v: Verdict)
    ensures v == Passed <==> multiset(expected) <= multiset(found)
  {
    var remaining := found;
    for i := 0 to |expected|
      invariant multiset(expected[..i]) <= multiset(found)
      invariant multiset(remaining) == multiset(found) - multiset(expected[..i])
    {
      var name := expected[i];
      assert expected[..i + 1] == expected[..i] + [name];
      ContainsAllStep(found, expected[..i], remaining, name);
      if name !in remaining {
        PrefixMultiset(expected, i + 1);
        return Failed;
      }
      remaining := RemoveFirst(remaining, name);
    }
    assert expected[..|expected|] == expected;
    return Passed;
  }

  /** assertClassContainsMemberVariableTypes: the expected type names, repeats counted, are among the declared fields' types. */
  method AssertClassContainsMemberVariableTypes(clazz: JClass, expectedTypeNames: seq<string>) returns (v: Verdict)
    ensures v == Passed <==> multiset(expectedTypeNames) <= multiset(clazz.declaredFieldTypes)
  {
    v := AssertContainsAll(clazz.declaredFieldTypes, expectedTypeNames);
  }

  /** assertClassContainsMemberMethodNames: the expected names, repeats counted, are among the public method names, so each overload is listed once. */
  method AssertClassContainsMemberMethodNames(clazz: JClass, expectedMethodNames: seq<string>) returns (v: Verdict)
    ensures v == Passed <==> multiset(expectedMethodNames) <= multiset(PublicMethodNames(clazz))
  {
    v := AssertContainsAll(PublicMethodNames(clazz), expectedMethodNames);
  }

  /** The order of the expected names does not matter, and nothing expected always passes. */
  lemma ContainsAllIgnoresOrder(found: seq<string>, e1: seq<string>, e2: seq<string>)
    requires multiset(e1) == multiset(e2)
    ensures multiset(e1) <= multiset(found) <==> multiset(e2) <= multiset(found)
    ensures multiset{} <= multiset(found)
  {
  }

  /** assertClassDoesNotContainMemberMethodNames: it fails as soon as one listed name is a public method name. */
  method AssertClassDoesNotContainMemberMethodNames(clazz: JClass, unexpectedMethodNames: seq<string>) returns (v: Verdict)
    ensures v == Passed <==> forall k | 0 <= k < |unexpectedMethodNames| :: unexpectedMethodNames[k] !in PublicMethodNames(clazz)
  {
    for i := 0 to |unexpectedMethodNames|
      invariant forall k | 0 <= k < i :: unexpectedMethodNames[k] !in PublicMethodNames(clazz)
    {
      if unexpectedMethodNames[i] in PublicMethodNames(clazz) {
        return Failed;
      }
    }
    return Passed;
  }

  /** annotationsIncludeMock: a flag set by any annotation of type Mock, over the whole array. */
  method AnnotationsIncludeMock(annotationTypes: seq<string>) returns (foundMockAnnotation: bool)
    ensures foundMockAnnotation <==> MOCK in annotationTypes
  {
    foundMockAnnotation := false;
    for i := 0 to |annotationTypes|
      invariant foundMockAnnotation <==> MOCK in annotationTypes[..i]
    {
      if annotationTypes[i] == MOCK {
        foundMockAnnotation := true;
      }
      assert annotationTypes[..i + 1] == annotationTypes[..i] + [annotationTypes[i]];
    }
    assert annotationTypes[..|annotationTypes|] == annotationTypes;
  }

  /** assertMemberMocked: a missing (null) field fails; otherwise the field must carry `@Mock`. */
  method AssertMemberMocked(fieldOnTest: Option<JField>) returns (v: Verdict)
    ensures fieldOnTest.None? ==> v == Failed
    ensures v == Passed <==> fieldOnTest.Some? && MOCK in fieldOnTest.value.annotationTypes
  {
    if fieldOnTest.None? {
      return Failed;
    }
    var mocked := AnnotationsIncludeMock(fieldOnTest.value.annotationTypes);
    v := if mocked then Passed else Failed;
  }
}
