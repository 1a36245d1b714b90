/**
 * ClassQuery: a query for the one class of a package that satisfies some name
 * filters. Adding a name filter builds a new query; `withSubTypeOf` changes
 * the query it is called on.
 */
module ClassQueries {
  import opened Java
  import opened Reflection

  /** The name of `Object.class`, the supertype every fresh query scans for. */
  const OBJECT: string := "java.lang.Object"

  /** `VALID_PACKAGE_PATTERN` found in `s`: a '.' with a non-'.' character right before and right after it. */
  predicate ValidPackageName(s: string)
  {
    exists i | 1 <= i < |s| - 1 :: DotBetweenNames(s, i)
  }

  predicate DotBetweenNames(s: string, i: int)
    requires 1 <= i < |s| - 1
  {
    s[i] == '.' && s[i - 1] != '.' && s[i + 1] != '.'
  }

  /** No '.' in the string. */
  predicate NoDot(s: string)
  {
    forall k | 0 <= k < |s| :: s[k] != '.'
  }

  /** The regular expression `[^.]+\.[^.]+` matches `s[a..c]`, with its '.' at `b`. */
  predicate PatternMatchesAt(s: string, a: int, b: int, c: int)
  {
    0 <= a < b && b + 1 < c <= |s| && NoDot(s[a..b]) && s[b] == '.' && NoDot(s[b + 1..c])
  }

  /** `Matcher.find()` for the pattern: some part of the string matches it. */
  predicate PatternFound(s: string)
  {
    exists a, b, c | 0 <= a < b < c <= |s| :: PatternMatchesAt(s, a, b, c)
  }

  /** The local test is the regular expression's search. */
  lemma ValidPackageNameIsPatternFound(s: string)
    ensures ValidPackageName(s) <==> PatternFound(s)
  {
    if ValidPackageName(s) {
      var i :| 1 <= i < |s| - 1 && DotBetweenNames(s, i);
      assert PatternMatchesAt(s, i - 1, i, i + 2);
    }
    if PatternFound(s) {
      var a, b, c :| 0 <= a < b < c <= |s| && PatternMatchesAt(s, a, b, c);
      assert s[b - 1] == s[a..b][b - 1 - a];
      assert s[b + 1] == s[b + 1..c][0];
      assert DotBetweenNames(s, b);
    }
  }

  /** A top-level package such as "com" is refused, a two-level one such as "com.amazon" accepted. */
  lemma PackageNameExamples()
    ensures !ValidPackageName("com")
    ensures ValidPackageName("com.amazon")
    ensures !ValidPackageName(".com") && !ValidPackageName("com.") && !ValidPackageName("com..amazon")
  {
    assert DotBetweenNames("com.amazon", 3);
  }

  class ClassQuery {
    const packageName: string
    const packageNameIsExact: bool
    const exactSimpleName: Option<string>
    /** The name substrings, a hash set listed once each. */
    const classNameContainingSubstrings: seq<string>
    var subTypeOf: string

    /** The private constructor: it does not carry `subTypeOf` over, which starts as Object. */
    constructor Create(packageName: string, packageNameIsExact: bool, exactSimpleName: Option<string>,
                       classNameContainingSubstrings: seq<string>)
      requires Distinct(classNameContainingSubstrings)
      requires exactSimpleName.Some? ==> classNameContainingSubstrings == []
      ensures this.packageName == packageName && this.packageNameIsExact == packageNameIsExact
      ensures this.exactSimpleName == exactSimpleName && this.classNameContainingSubstrings == classNameContainingSubstrings
      ensures subTypeOf == OBJECT
      ensures Valid()
    {
      this.packageName := packageName;
      this.packageNameIsExact := packageNameIsExact;
      this.exactSimpleName := exactSimpleName;
      this.classNameContainingSubstrings := classNameContainingSubstrings;
      subTypeOf := OBJECT;
    }

    /** The substrings form a set, and no query holds both an exact name and substrings. */
    predicate Valid()
    {
      Distinct(classNameContainingSubstrings)
      && (exactSimpleName.Some? ==> classNameContainingSubstrings == [])
    }

    /** inExactPackage: only classes directly in the package. */
    static method InExactPackage(exactPackageName: Option<string>) returns (r: Result<ClassQuery>)
      ensures r.Err? <==> IsEmpty(exactPackageName) || !ValidPackageName(exactPackageName.value)
      ensures r.Err? ==> r.error == IllegalArgument
      ensures r.Ok? ==> (fresh(r.value) && r.value.Valid() && r.value.packageName == exactPackageName.value
        && r.value.packageNameIsExact && r.value.exactSimpleName.None? && r.value.classNameContainingSubstrings == []
        && r.value.subTypeOf == OBJECT)
    {
      if IsEmpty(exactPackageName) || !ValidPackageName(exactPackageName.value) {
        return Err(IllegalArgument);
      }
      var q := new ClassQuery.Create(exactPackageName.value, true, None, []);
      return Ok(q);
    }

    /** inContainingPackage: classes in the package or any package below it. */
    static method InContainingPackage(containingPackageName: Option<string>) returns (r: Result<ClassQuery>)
      ensures r.Err? <==> IsEmpty(containingPackageName) || !ValidPackageName(containingPackageName.value)
      ensures r.Err? ==> r.error == IllegalArgument
      ensures r.Ok? ==> (fresh(r.value) && r.value.Valid() && r.value.packageName == containingPackageName.value
        && !r.value.packageNameIsExact && r.value.exactSimpleName.None? && r.value.classNameContainingSubstrings == []
        && r.value.subTypeOf == OBJECT)
    {
      if IsEmpty(containingPackageName) || !ValidPackageName(containingPackageName.value) {
        return Err(IllegalArgument);
      }
      var q := new ClassQuery.Create(containingPackageName.value, false, None, []);
      return Ok(q);
    }

    /**
     * withExactSimpleName: IllegalStateException once any name filter is set,
     * then IllegalArgumentException for a null or empty name; otherwise a new
     * query. This query is left as it was.
     */
    method WithExactSimpleName(simpleName: Option<string>) returns (r: Result<ClassQuery>)
      requires Valid()
      ensures exactSimpleName.Some? || classNameContainingSubstrings != [] ==> r == Err(IllegalState)
      ensures exactSimpleName.None? && classNameContainingSubstrings == [] && IsEmpty(simpleName) ==> r == Err(IllegalArgument)
      ensures r.Ok? ==> (fresh(r.value) && r.value.Valid() && r.value.exactSimpleName == simpleName
        && r.value.packageName == packageName && r.value.packageNameIsExact == packageNameIsExact
        && r.value.classNameContainingSubstrings == classNameContainingSubstrings && r.value.subTypeOf == OBJECT)
      ensures r.Ok? <==> exactSimpleName.None? && classNameContainingSubstrings == [] && !IsEmpty(simpleName)
    {
      if exactSimpleName.Some? || classNameContainingSubstrings != [] {
        return Err(IllegalState);
      }
      if IsEmpty(simpleName) {
        return Err(IllegalArgument);
      }
      var q := new ClassQuery.Create(packageName, packageNameIsExact, simpleName, classNameContainingSubstrings);
      return Ok(q);
    }

    /**
     * withSimpleNameContaining: IllegalStateException after an exact name, then
     * IllegalArgumentException for a null or empty substring; otherwise a new
     * query with the substring added to a copy of the set. This query is left
     * as it was.
     */
    method WithSimpleNameContaining(nameContainingSubstring: Option<string>) returns (r: Result<ClassQuery>)
      requires Valid()
      ensures exactSimpleName.Some? ==> r == Err(IllegalState)
      ensures exactSimpleName.None? && IsEmpty(nameContainingSubstring) ==> r == Err(IllegalArgument)
      ensures r.Ok? <==> exactSimpleName.None? && !IsEmpty(nameContainingSubstring)
      ensures r.Ok? ==> (fresh(r.value) && r.value.Valid() && r.value.exactSimpleName.None?
        && r.value.packageName == packageName && r.value.packageNameIsExact == packageNameIsExact
        && r.value.subTypeOf == OBJECT)
      ensures r.Ok? ==> forall t :: t in r.value.classNameContainingSubstrings <==>
                          t in classNameContainingSubstrings || Some(t) == nameContainingSubstring
    {
      if exactSimpleName.Some? {
        return Err(IllegalState);
      }
      if IsEmpty(nameContainingSubstring) {
        return Err(IllegalArgument);
      }
      var substrings := Add(classNameContainingSubstrings, nameContainingSubstring.value);
      var q := new ClassQuery.Create(packageName, packageNameIsExact, exactSimpleName, substrings);
      return Ok(q);
    }

    /** withSubTypeOf: unlike the name filters, it changes this query and returns it. */
    method WithSubTypeOf(subTypeOfClass: string) returns (r: ClassQuery)
      modifies this
      ensures r == this && subTypeOf == subTypeOfClass
    {
      subTypeOf := subTypeOfClass;
      return this;
    }

    /** The simple-name filter: equal to the exact name if one is set, otherwise containing every substring. */
    predicate NameMatches(simpleName: string)
    {
      if exactSimpleName.Some? then simpleName == exactSimpleName.value
      else forall t | t in classNameContainingSubstrings :: Contains(simpleName, t)
    }

    /** The filters findClasses applies to a scanned class. */
    predicate Matches(c: JClass)
    {
      (!packageNameIsExact || packageName == c.packageName) && NameMatches(c.simpleName)
    }

    /** classNameMatchesConstraints: an early-returning pass over the substrings. */
    method ClassNameMatchesConstraints(c: JClass) returns (matches: bool)
      ensures matches == NameMatches(c.simpleName)
    {
      if exactSimpleName.Some? {
        return c.simpleName == exactSimpleName.value;
      }
      for i := 0 to |classNameContainingSubstrings|
        invariant forall k | 0 <= k < i :: Contains(c.simpleName, classNameContainingSubstrings[k])
      {
        if !Contains(c.simpleName, classNameContainingSubstrings[i]) {
          return false;
        }
      }
      return true;
    }

    /**
     * findClasses: the scanned subtypes of `subTypeOf` under the package that pass
     * the package and name filters. `scan(packageName, subTypeOf)` stands for the
     * Reflections library's answer, empty when the package does not exist.
     */
    method FindClasses(scan: (string, string) -> seq<JClass>) returns (classes: seq<JClass>)
      ensures Distinct(classes)
      ensures forall c :: c in classes <==> c in scan(packageName, subTypeOf) && Matches(c)
    {
      var scanned := scan(packageName, subTypeOf);
      classes := [];
      for i := 0 to |scanned|
        invariant Distinct(classes)
        invariant forall c :: c in classes <==> c in scanned[..i] && Matches(c)
      {
        var c := scanned[i];
        var nameMatches := ClassNameMatchesConstraints(c);
        if (!packageNameIsExact || packageName == c.packageName) && nameMatches {
          classes := Add(classes, c);
        }
        assert scanned[..i + 1] == scanned[..i] + [c];
      }
      assert scanned[..|scanned|] == scanned;
    }

    /** findClass: NoClassFoundException for no match, MultipleClassesFoundException for more than one, else the match. */
    method FindClass(scan: (string, string) -> seq<JClass>) returns (r: Result<JClass>)
      ensures r == Err(NoClassFound) <==> forall c | c in scan(packageName, subTypeOf) :: !Matches(c)
      ensures r == Err(MultipleClassesFound) <==>
        exists c1, c2 | c1 in scan(packageName, subTypeOf) && c2 in scan(packageName, subTypeOf) :: c1 != c2 && Matches(c1) && Matches(c2)
      ensures r.Ok? ==> r.value in scan(packageName, subTypeOf) && Matches(r.value)
      ensures r.Ok? ==> forall c | c in scan(packageName, subTypeOf) && Matches(c) :: c == r.value
    {
      var classes := FindClasses(scan);
      if |classes| == 0 {
        return Err(NoClassFound);
      }
      assert classes[0] in classes;
      if |classes| > 1 {
        assert classes[0] != classes[1] && classes[1] in classes;
        return Err(MultipleClassesFound);
      }
      assert forall c | c in classes :: c == classes[0];
      return Ok(classes[0]);
    }
  }
}
