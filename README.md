# Advertising service, mock lambdas and test tooling — a Dafny model

This project models the decision logic of the ATA advertising service. It has five parts.

1. **The targeting rule engine.**
   - `TargetingPredicateResult` is a three-valued result with `invert`.
   - `Comparison` holds the LT/GT/EQ ranges of `compareTo`.
   - `RequestContext` decides whether a customer counts as recognized.
   - The abstract `TargetingPredicate` routes to a recognized or unrecognized rule and then applies its `inverse` flag.
   - Six concrete predicates: age, spend frequency, spend value, Prime benefit, parent and recognized customer.
   - `TargetingEvaluator` ANDs a group's predicates.
   - The DAOs the predicates consult become the three functions of a `CustomerData` value: profile lookup, spend map and benefit names.
2. **Ad selection** (`AdvertisementSelectionLogic.selectAdvertisement`).
   - For every content of the marketplace, it finds the highest click-through-rate targeting group that evaluates TRUE.
   - It puts that group and the content into a TreeMap ordered by descending rate, then renders the content under the first key.
   - The loop is a method proved equal to a specification function. Lemmas over that function state what the selection guarantees.
   - The tie rule is stated too: groups of equal rate share one key, so the last content wins.
3. **Translators.**
   - `TargetingPredicateTranslator` reads a wire predicate: a type, a negate flag and string attributes checked against fixed value tables and `Integer.parseInt`. It also writes predicates back.
   - Round trips are proved in both directions.
   - `TargetingGroupTranslator` and `AdvertisementContentTranslator` are also modelled.
   - So is the mutable `AdvertisementContent`, with its setters, builder, `equals` and `hashCode`.
4. **Mock lambda services.** Customer profile, spend categories and Prime benefits each pick a fixture from a constant table by a character-code sum taken modulo 10 or 7.
   - The arithmetic is modelled as Java performs it: 32-bit wrap-around and a remainder that keeps the dividend's sign.
   - It is also modelled as evidently intended. See "Findings".
5. **Test-infrastructure queries and assertions.**
   - `ClassQuery`, `MethodQuery` and `ConstructorQuery` are builders with one-shot and mutually exclusive filters.
   - Argument types match in any order, through Guava's permutations, which are proved to be exactly the rearrangements.
   - Lookups return 0, 1 or many results.
   - `IntrospectionAssertions` makes multiset-containment checks by removing items from a list in place.
   - `AtaAssertions` provides `assertContains` and the exact-decimal `assertClose`.

Java semantics live in the `Java` module (`java.dfy`):
- `null` is `Option.None`, and a thrown exception is `Result.Err`.
- `int` arithmetic wraps through `Wrap32`; `%` is `Rem`, which truncates.
- Strings are read as UTF-16 code units.
- It also defines `String.hashCode`, `Objects.hash`, `isBlank`/`isEmpty`, `contains` and `equalsIgnoreCase`.

`Integer.parseInt`/`toString` are in `java_integer.dfy`.

Source paths below are relative to the repository root.

## Model

| member | source | states |
|---|---|---|
| PredicateResults.Invert | src/com/amazon/ata/advertising/service/targeting/predicate/TargetingPredicateResult.java:28-40 | the inverted result is true exactly when the original was FALSE, is FALSE exactly when it was TRUE, and is INDETERMINATE exactly when it was INDETERMINATE |
| PredicateResults.OnlyTrueIsTrue | src/com/amazon/ata/advertising/service/targeting/predicate/TargetingPredicateResult.java:8-22 | `isTrue` holds for TRUE and for no other constant |
| PredicateResults.InvertInvolution | src/com/amazon/ata/advertising/service/targeting/predicate/TargetingPredicateResult.java:28-40 | inverting twice gives back the original result |
| Comparisons.CompareTo | src/com/amazon/ata/advertising/service/targeting/Comparison.java:29-30 | `Integer.compareTo` is negative, zero or positive exactly as left is below, equal to or above right |
| Comparisons.CompareMeaning | src/com/amazon/ata/advertising/service/targeting/Comparison.java:7-32 | LT.compare holds iff left < right, GT iff left > right, EQ iff left == right |
| Comparisons.RangesPartition | src/com/amazon/ata/advertising/service/targeting/Comparison.java:7 | every int comparator result lies in exactly one of the three ranges |
| Comparisons.LtMirrorsGt | src/com/amazon/ata/advertising/service/targeting/Comparison.java:7-32 | LT.compare(a, b) equals GT.compare(b, a) |
| Comparisons.Named | src/com/amazon/ata/advertising/service/model/translator/TargetingPredicateTranslator.java:137-147 | a string names a constant only if it equals that constant's name, and each of "LT", "GT", "EQ" names one; null names none |
| RequestContexts.NewRequestContext | src/com/amazon/ata/advertising/service/model/RequestContext.java:22-31 | recognized iff the id is non-null with a non-whitespace character; recognized iff a customer id is stored; a recognized id is stored unchanged; the marketplace id is stored unchanged |
| RequestContexts.BlankCustomersAreEqual | src/com/amazon/ata/advertising/service/model/RequestContext.java:22-55 | contexts built from any two blank ids and the same marketplace are equal |
| RequestContexts.EqualContextsHashAlike | src/com/amazon/ata/advertising/service/model/RequestContext.java:46-60 | equal contexts have equal hash codes |
| RequestContexts.EqualConstructedContextsAgree | src/com/amazon/ata/advertising/service/model/RequestContext.java:22-55 | constructed contexts that are `equals` also agree on the recognized flag, which `equals` does not compare |
| TargetingPredicates.NewAge | src/com/amazon/ata/advertising/service/targeting/predicate/AgeTargetingPredicate.java:27-31 | throws NullPointerException exactly for a null age range; otherwise an age predicate holding the range and the flag |
| TargetingPredicates.NewCategorySpendFrequency | src/com/amazon/ata/advertising/service/targeting/predicate/CategorySpendFrequencyTargetingPredicate.java:37-49 | throws NullPointerException exactly when the category or the comparison is null; otherwise a predicate holding every argument |
| TargetingPredicates.NewCategorySpendValue | src/com/amazon/ata/advertising/service/targeting/predicate/CategorySpendValueTargetingPredicate.java:36-48 | throws NullPointerException exactly when the category or the comparison is null; otherwise a predicate holding every argument |
| TargetingPredicates.NewPrimeBenefit | src/com/amazon/ata/advertising/service/targeting/predicate/PrimeBenefitTargetingPredicate.java:28-33 | throws NullPointerException exactly for a null benefit; otherwise a predicate holding the benefit and the flag |
| TargetingPredicates.SetInverse | src/com/amazon/ata/advertising/service/targeting/predicate/TargetingPredicate.java:70-76 | only the inverse flag changes, to the value given |
| TargetingPredicates.Evaluate | src/com/amazon/ata/advertising/service/targeting/predicate/TargetingPredicate.java:39-52 | throws exactly when the raw evaluation throws; returns the raw result without inverse and its inversion with inverse |
| TargetingPredicates.FlippingInverseInverts | src/com/amazon/ata/advertising/service/targeting/predicate/TargetingPredicate.java:39-42 | flipping the inverse flag inverts the result for the same context and data, and throws in the same cases |
| TargetingPredicates.UnrecognizedIsIndeterminate | src/com/amazon/ata/advertising/service/targeting/predicate/TargetingPredicate.java:49-61 | every predicate except the recognized one is INDETERMINATE for an unrecognized customer, with or without inverse |
| TargetingPredicates.RecognizedPredicateResult | src/com/amazon/ata/advertising/service/targeting/predicate/RecognizedTargetingPredicate.java:23-31 | TRUE for a recognized and FALSE for an unrecognized customer, swapped by inverse, never INDETERMINATE |
| TargetingPredicates.AgeResult | src/com/amazon/ata/advertising/service/targeting/predicate/AgeTargetingPredicate.java:47-53 | TRUE iff the targeted range equals the profile's range ignoring case, flipped by inverse; a null profile range gives FALSE |
| TargetingPredicates.SpendFrequencyResult | src/com/amazon/ata/advertising/service/targeting/predicate/CategorySpendFrequencyTargetingPredicate.java:69-77 | TRUE iff the purchases in the category, 0 when it is absent, compare as asked against the target; flipped by inverse |
| TargetingPredicates.SpendValueResult | src/com/amazon/ata/advertising/service/targeting/predicate/CategorySpendValueTargetingPredicate.java:66-74 | TRUE iff the dollars spent in the category, 0 when it is absent, compare as asked against the target; flipped by inverse |
| TargetingPredicates.SpendPredicatesReadOneField | src/com/amazon/ata/advertising/service/targeting/predicate/CategorySpendFrequencyTargetingPredicate.java:69-77 | the frequency predicate never depends on dollars spent, and the value predicate never on the number of purchases |
| TargetingPredicates.NullFieldsFailValidation | src/com/amazon/ata/advertising/service/targeting/predicate/CategorySpendValueTargetingPredicate.java:63-74 | a predicate left with a null field by a no-arg constructor throws when a recognized customer is evaluated |
| TargetingPredicates.PrimeBenefitResult | src/com/amazon/ata/advertising/service/targeting/predicate/PrimeBenefitTargetingPredicate.java:49-56 | TRUE iff the benefit is in the customer's list, flipped by inverse; only which names occur matters, not order or repetition; an empty list gives FALSE, or TRUE with inverse |
| TargetingPredicates.ParentResult | src/com/amazon/ata/advertising/service/targeting/predicate/ParentPredicate.java:33-38 | a null parent flag is INDETERMINATE with or without inverse; true and false give TRUE and FALSE, swapped by inverse |
| TargetingEvaluation.AllTrue | src/com/amazon/ata/advertising/service/targeting/TargetingEvaluator.java:47-51 | a group that evaluates is never INDETERMINATE |
| TargetingEvaluation.TrueIffEveryPredicateTrue | src/com/amazon/ata/advertising/service/targeting/TargetingEvaluator.java:36-55 | the group is TRUE iff every predicate evaluates TRUE |
| TargetingEvaluation.FalseIffSomePredicateNotTrue | src/com/amazon/ata/advertising/service/targeting/TargetingEvaluator.java:36-55 | when no predicate throws, the group is FALSE iff some predicate is FALSE or INDETERMINATE |
| TargetingEvaluation.OrderIrrelevant | src/com/amazon/ata/advertising/service/targeting/TargetingEvaluator.java:36-55 | when no predicate throws, reordering the predicates leaves the group's result unchanged |
| TargetingEvaluation.EmptyGroupIsTrue | src/com/amazon/ata/advertising/service/targeting/TargetingEvaluator.java:47-51 | a group without predicates is TRUE |
| AdSelection.Insert | src/com/amazon/ata/advertising/service/businesslogic/AdvertisementSelectionLogic.java:61-69 | inserting into a list sorted by descending rate keeps it sorted and adds exactly the one group |
| AdSelection.SortByCtr | src/com/amazon/ata/advertising/service/businesslogic/AdvertisementSelectionLogic.java:61-69 | the result is sorted by descending click-through rate and is a permutation of the content's groups |
| AdSelection.FirstTrueIsFirst | src/com/amazon/ata/advertising/service/businesslogic/AdvertisementSelectionLogic.java:70-71 | `findFirst` returns a TRUE group that only non-TRUE groups precede; it returns none iff every group evaluates and none is TRUE |
| AdSelection.SortedMembers | src/com/amazon/ata/advertising/service/businesslogic/AdvertisementSelectionLogic.java:68-69 | sorting keeps exactly the content's groups |
| AdSelection.WinningGroupIsBestTrueGroup | src/com/amazon/ata/advertising/service/businesslogic/AdvertisementSelectionLogic.java:67-72 | the group a content competes with is one of its TRUE groups, and no TRUE group of it has a higher rate |
| AdSelection.NoWinnerIffNoTrueGroup | src/com/amazon/ata/advertising/service/businesslogic/AdvertisementSelectionLogic.java:67-72 | a content has no winning group iff all its groups evaluate and none is TRUE, including a content without groups |
| AdSelection.Get | src/com/amazon/ata/advertising/service/businesslogic/AdvertisementSelectionLogic.java:77 | a found entry is in the map with the asked rate; nothing found means no key has that rate |
| AdSelection.Put | src/com/amazon/ata/advertising/service/businesslogic/AdvertisementSelectionLogic.java:63-72 | the map stays in strictly descending key order, and no key above every old key and the new rate appears |
| AdSelection.PutGet | src/com/amazon/ata/advertising/service/businesslogic/AdvertisementSelectionLogic.java:61-72 | after a put, the group's rate holds the new content under the key group already there, or under the new group when the rate was absent; every other rate looks up what it did before |
| AdSelection.FirstKeyIsHighest | src/com/amazon/ata/advertising/service/businesslogic/AdvertisementSelectionLogic.java:75-77 | `firstKey` has a rate at least that of every key in the map |
| AdSelection.Step | src/com/amazon/ata/advertising/service/businesslogic/AdvertisementSelectionLogic.java:72 | one loop iteration keeps the map in descending key order |
| AdSelection.StepGet | src/com/amazon/ata/advertising/service/businesslogic/AdvertisementSelectionLogic.java:72 | after an iteration with a winner, its rate maps to the content; every other rate is unchanged |
| AdSelection.EligibleAfter | src/com/amazon/ata/advertising/service/businesslogic/AdvertisementSelectionLogic.java:66-73 | the map the loop builds is always in descending key order |
| AdSelection.ErrorPersists | src/com/amazon/ata/advertising/service/businesslogic/AdvertisementSelectionLogic.java:66-73 | once an evaluation has thrown, the remaining contents cannot change the outcome |
| AdSelection.SelectAdvertisement | src/com/amazon/ata/advertising/service/businesslogic/AdvertisementSelectionLogic.java:54-83 | the loop over the contents, putting into the TreeMap in place, returns exactly the specified selection |
| AdSelection.EligibleWinnersEvaluate | src/com/amazon/ata/advertising/service/businesslogic/AdvertisementSelectionLogic.java:66-73 | when the loop completes, every content's winning group was computed without an exception |
| AdSelection.EligibleHasEveryWinningRate | src/com/amazon/ata/advertising/service/businesslogic/AdvertisementSelectionLogic.java:66-73 | every content's winning rate is a key of the map |
| AdSelection.EligibleHoldsLastWinner | src/com/amazon/ata/advertising/service/businesslogic/AdvertisementSelectionLogic.java:61-73 | under every key is the last content in DAO order whose winning group has that rate |
| AdSelection.EmptyMarketplaceGivesEmptyAd | src/com/amazon/ata/advertising/service/businesslogic/AdvertisementSelectionLogic.java:55-57 | a null or empty marketplace id gives the empty advertisement, whatever the DAOs hold |
| AdSelection.SelectedIsHighestRated | src/com/amazon/ata/advertising/service/businesslogic/AdvertisementSelectionLogic.java:61-79 | the selected content is one of the marketplace's contents; its winning rate is at least every other content's winning rate; no later content wins with the same rate |
| AdSelection.NonEmptyIffSomeContentEligible | src/com/amazon/ata/advertising/service/businesslogic/AdvertisementSelectionLogic.java:66-79 | when nothing throws, an advertisement is chosen iff some content has a TRUE targeting group |
| JavaInteger.Digits | src/com/amazon/ata/advertising/service/model/translator/TargetingPredicateTranslator.java:198-205 | the digits of a natural number have no leading zero and denote that number |
| JavaInteger.ParseInt | src/com/amazon/ata/advertising/service/model/translator/TargetingPredicateTranslator.java:149-159 | a parse succeeds only on a non-null, non-empty string |
| JavaInteger.ParseIntOfIntToString | src/com/amazon/ata/advertising/service/model/translator/TargetingPredicateTranslator.java:149-159 | every int survives `parseInt(toString(n))` |
| JavaInteger.IntToStringOfParseInt | src/com/amazon/ata/advertising/service/model/translator/TargetingPredicateTranslator.java:149-159 | on the spellings `toString` produces, `toString(parseInt(t)) == t` |
| PredicateTranslation.ToCategory | src/com/amazon/ata/advertising/service/model/translator/TargetingPredicateTranslator.java:128-135 | accepted iff the category attribute is one of the thirteen categories, and then returned as is; otherwise a client exception naming the key |
| PredicateTranslation.ToComparison | src/com/amazon/ata/advertising/service/model/translator/TargetingPredicateTranslator.java:137-147 | accepted iff the attribute is exactly "LT", "GT" or "EQ", giving the constant of that name; otherwise a client exception naming the key |
| PredicateTranslation.ToInt | src/com/amazon/ata/advertising/service/model/translator/TargetingPredicateTranslator.java:149-159 | accepted iff `parseInt` accepts the attribute, giving its value; otherwise a client exception naming the key |
| PredicateTranslation.FromCoral | src/com/amazon/ata/advertising/service/model/translator/TargetingPredicateTranslator.java:41-68 | a null type throws NullPointerException; a result carries the wire negate flag as inverse and has the subtype the wire type names |
| PredicateTranslation.FromSpendAttributes | src/com/amazon/ata/advertising/service/model/translator/TargetingPredicateTranslator.java:81-104 | a spend predicate read from attributes has the given inverse flag and the frequency or value kind asked for |
| PredicateTranslation.Attributes | src/com/amazon/ata/advertising/service/model/translator/TargetingPredicateTranslator.java:192-213 | the map written has exactly the keys fromCoral reads for the type; it fails only for a spend predicate without a comparison |
| PredicateTranslation.ToAttributes | src/com/amazon/ata/advertising/service/model/translator/TargetingPredicateTranslator.java:192-213 | the successive puts into a fresh map build exactly the specified attribute map |
| PredicateTranslation.ToCoral | src/com/amazon/ata/advertising/service/model/translator/TargetingPredicateTranslator.java:166-190 | the wire predicate has negate equal to inverse, the type of the predicate's class, and exactly the keys fromCoral reads |
| PredicateTranslation.FromCoralIsValid | src/com/amazon/ata/advertising/service/model/translator/TargetingPredicateTranslator.java:41-159 | every predicate fromCoral accepts holds values of the fixed tables and a comparison |
| PredicateTranslation.FromCoralOfToCoral | src/com/amazon/ata/advertising/service/model/translator/TargetingPredicateTranslator.java:41-213 | a valid predicate is written without failure and read back unchanged |
| PredicateTranslation.SpendRoundTrip | src/com/amazon/ata/advertising/service/model/translator/TargetingPredicateTranslator.java:81-104 | the spend attributes toAttributes writes are read back as the fields they came from |
| PredicateTranslation.ToCoralOfFromCoral | src/com/amazon/ata/advertising/service/model/translator/TargetingPredicateTranslator.java:41-213 | an accepted wire predicate is written back with the same type and flag and the same attribute values; a number matches when it was spelled canonically |
| PredicateTranslation.SpendReadBack | src/com/amazon/ata/advertising/service/model/translator/TargetingPredicateTranslator.java:81-104 | accepted spend attributes are written back with the same category and comparison, and the same number when canonically spelled |
| PredicateTranslation.FromCoralReadsOnlyItsKeys | src/com/amazon/ata/advertising/service/model/translator/TargetingPredicateTranslator.java:41-159 | wire predicates that agree on the keys of their type translate alike |
| PredicateTranslation.ParentAndRecognizedIgnoreAttributes | src/com/amazon/ata/advertising/service/model/translator/TargetingPredicateTranslator.java:106-126 | PARENT and RECOGNIZED always succeed and ignore the attribute map, even a null one |
| PredicateTranslation.AgeAcceptsExactlyTheTable | src/com/amazon/ata/advertising/service/model/translator/TargetingPredicateTranslator.java:70-79 | AGE is accepted iff the attribute is one of the eight age ranges; otherwise a client exception naming the key, a missing key included |
| PredicateTranslation.SpendAttributesChecked | src/com/amazon/ata/advertising/service/model/translator/TargetingPredicateTranslator.java:81-104 | a bad category fails first, then a bad comparison; with both valid, the predicate is accepted iff its number parses |
| GroupTranslation.PredicatesToCoral | src/com/amazon/ata/advertising/service/model/translator/TargetingGroupTranslator.java:18-20 | succeeds iff every predicate translates; element i of the result is the translation of input i; on failure, the first predicate that fails supplies the exception |
| GroupTranslation.GroupToCoral | src/com/amazon/ata/advertising/service/model/translator/TargetingGroupTranslator.java:17-28 | the ids and the click-through rate are copied unchanged, and the predicates translated |
| GroupTranslation.GroupPredicatesReadBack | src/com/amazon/ata/advertising/service/model/translator/TargetingGroupTranslator.java:17-28 | a group of valid predicates is written, and each written predicate reads back as the original in the same position |
| GroupTranslation.GroupFailsOnMissingComparison | src/com/amazon/ata/advertising/service/model/translator/TargetingGroupTranslator.java:17-28 | writing a group fails iff one of its spend predicates lacks a comparison |
| Contents.AdvertisementContent.constructor | src/com/amazon/ata/advertising/service/model/AdvertisementContent.java:27-31 | the new content holds the three given fields |
| Contents.AdvertisementContent.Empty | src/com/amazon/ata/advertising/service/model/AdvertisementContent.java:36 | every field of the new content is null |
| Contents.AdvertisementContent.SetRenderableContent | src/com/amazon/ata/advertising/service/model/AdvertisementContent.java:43-47 | only the renderable content changes, to the value given |
| Contents.AdvertisementContent.SetContentId | src/com/amazon/ata/advertising/service/model/AdvertisementContent.java:49-55 | only the content id changes, to the value given |
| Contents.AdvertisementContent.SetMarketplaceId | src/com/amazon/ata/advertising/service/model/AdvertisementContent.java:57-63 | only the marketplace id changes, to the value given |
| Contents.AdvertisementContent.Equals | src/com/amazon/ata/advertising/service/model/AdvertisementContent.java:70-82 | null and other classes are never equal; an object equals itself; a true answer comes only from a content; a throw happens only for a distinct other object when this id is null; for a distinct content and a non-null own id, the answer is whether the two ids are equal |
| Contents.EqualContentsHashAlike | src/com/amazon/ata/advertising/service/model/AdvertisementContent.java:65-82 | contents that are equal have equal hash codes |
| Contents.DifferentIdsAreUnequal | src/com/amazon/ata/advertising/service/model/AdvertisementContent.java:70-82 | distinct contents whose ids differ, the first non-null, are unequal whatever their other fields |
| Contents.EqualMeansSameId | src/com/amazon/ata/advertising/service/model/AdvertisementContent.java:70-82 | between distinct contents, a true answer means both ids are the same non-null id |
| Contents.SameIdMeansEqual | src/com/amazon/ata/advertising/service/model/AdvertisementContent.java:70-82 | two contents with the same non-null id are equal both ways, whatever their other fields |
| Contents.NullIdIsAsymmetric | src/com/amazon/ata/advertising/service/model/AdvertisementContent.java:80-81 | with a null id on one side only, the null side throws and the other side answers false |
| Contents.Builder.constructor | src/com/amazon/ata/advertising/service/model/AdvertisementContent.java:88-90 | a new builder has every field null |
| Contents.Builder.WithContentId | src/com/amazon/ata/advertising/service/model/AdvertisementContent.java:114-119 | sets only the content id and returns the same builder |
| Contents.Builder.WithRenderableContent | src/com/amazon/ata/advertising/service/model/AdvertisementContent.java:121-126 | sets only the renderable content and returns the same builder |
| Contents.Builder.WithMarketplaceId | src/com/amazon/ata/advertising/service/model/AdvertisementContent.java:133-137 | sets only the marketplace id and returns the same builder |
| Contents.Builder.Build | src/com/amazon/ata/advertising/service/model/AdvertisementContent.java:105-107 | a new content holding the builder's three fields |
| ContentTranslation.ToCoral | src/com/amazon/ata/advertising/service/model/translator/AdvertisementContentTranslator.java:19-25 | the wire content has the content's id and renderable content and the caller's marketplace id; the content's own marketplace id is not read. The round trips are stated by `WireRoundTrip` and `ContentRoundTrip` |
| ContentTranslation.FromCoral | src/com/amazon/ata/advertising/service/model/translator/AdvertisementContentTranslator.java:32-37 | a new content with the wire id and content and a null marketplace id; written back with the wire marketplace id, it gives the wire shape again |
| ContentTranslation.WireRoundTrip | src/com/amazon/ata/advertising/service/model/translator/AdvertisementContentTranslator.java:19-37 | `toCoral(fromCoral(a), a.marketplaceId)` reproduces all three wire fields |
| ContentTranslation.ContentRoundTrip | src/com/amazon/ata/advertising/service/model/translator/AdvertisementContentTranslator.java:19-37 | `fromCoral(toCoral(c, m))` keeps the id and the content and loses the marketplace id, so it equals c iff c has none |
| Java.Rem | LibrariesAndUtilities/ATACustomerServiceLambda/src/com/amazon/atacustomerservicelambda/activity/GetCustomerProfileActivity.java:90 | Java's `%`: quotient times divisor plus remainder is the dividend; the remainder lies in [0, b) for a non-negative dividend and in (-b, 0] for a negative one |
| Java.CharSumIsWrappedWeightSum | LibrariesAndUtilities/ATACustomerServiceLambda/src/com/amazon/atacustomerservicelambda/activity/GetCustomerProfileActivity.java:90 | `chars().sum()` is the exact sum of the code units wrapped into an int |
| Java.WeightSumPermutation | LibrariesAndUtilities/ATACustomerServiceLambda/src/com/amazon/atacustomerservicelambda/activity/GetCustomerSpendCategoriesActivity.java:99 | the character sum does not depend on the order of the characters |
| Java.OverflowingStringSum | LibrariesAndUtilities/ATACustomerServiceLambda/src/com/amazon/atacustomerservicelambda/activity/GetCustomerProfileActivity.java:90 | 32769 copies of U+FFFF add up to 2147516415, which `chars().sum()` wraps to -2147450881 |
| CustomerProfileLambda.Lookup | LibrariesAndUtilities/ATACustomerServiceLambda/src/com/amazon/atacustomerservicelambda/activity/GetCustomerProfileActivity.java:59-70 | the table has an entry exactly for the ids 0 to 9 |
| CustomerProfileLambda.ProfileIdAsWritten | LibrariesAndUtilities/ATACustomerServiceLambda/src/com/amazon/atacustomerservicelambda/activity/GetCustomerProfileActivity.java:90 | the id as Java computes it exists iff the customer id is non-empty, and lies in -9..9 |
| CustomerProfileLambda.HandleRequestAsWritten | LibrariesAndUtilities/ATACustomerServiceLambda/src/com/amazon/atacustomerservicelambda/activity/GetCustomerProfileActivity.java:86-94 | a null id throws InvalidParameterException; an empty id throws from `charAt(0)` |
| CustomerProfileLambda.OverflowingIdHasNoProfile | LibrariesAndUtilities/ATACustomerServiceLambda/src/com/amazon/atacustomerservicelambda/activity/GetCustomerProfileActivity.java:90-94 | the id of 32769 copies of U+FFFF wraps to profile id -6, and the response holds no profile |
| CustomerProfileLambda.ProfileId | LibrariesAndUtilities/ATACustomerServiceLambda/src/com/amazon/atacustomerservicelambda/activity/GetCustomerProfileActivity.java:90 | the intended id exists iff the customer id is non-empty, and lies in 0..9 |
| CustomerProfileLambda.HandleRequest | LibrariesAndUtilities/ATACustomerServiceLambda/src/com/amazon/atacustomerservicelambda/activity/GetCustomerProfileActivity.java:86-94 | a null id throws InvalidParameterException and an empty id throws from `charAt(0)`; every other id gets a profile of the table |
| CustomerProfileLambda.AsWrittenAgreesWithoutOverflow | LibrariesAndUtilities/ATACustomerServiceLambda/src/com/amazon/atacustomerservicelambda/activity/GetCustomerProfileActivity.java:86-94 | while the code units add up inside int, the code as written and the intended one give the same answer or the same exception |
| CustomerProfileLambda.EmptyProfileIds | LibrariesAndUtilities/ATACustomerServiceLambda/src/com/amazon/atacustomerservicelambda/activity/GetCustomerProfileActivity.java:57-70 | the ids 2, 6, 7, 8 and 9, and only they, carry the empty profile |
| CustomerProfileLambda.WorkedExamples | tst/com/tct/helper/TestConstants.java:10-15 | "de" gets the PARENT profile, id 1, and "db" the empty profile, id 8 |
| CustomerSpendLambda.Lookup | LibrariesAndUtilities/ATACustomerServiceLambda/src/com/amazon/atacustomerservicelambda/activity/GetCustomerSpendCategoriesActivity.java:67-75 | the table has an entry exactly for the ids 0 to 6 |
| CustomerSpendLambda.SpendIdAsWritten | LibrariesAndUtilities/ATACustomerServiceLambda/src/com/amazon/atacustomerservicelambda/activity/GetCustomerSpendCategoriesActivity.java:99 | the id as Java computes it lies in -6..6 |
| CustomerSpendLambda.HandleRequestAsWritten | LibrariesAndUtilities/ATACustomerServiceLambda/src/com/amazon/atacustomerservicelambda/activity/GetCustomerSpendCategoriesActivity.java:92-103 | it throws InvalidParameterException exactly when the customer id or the marketplace id is null |
| CustomerSpendLambda.OverflowingIdHasNoSpend | LibrariesAndUtilities/ATACustomerServiceLambda/src/com/amazon/atacustomerservicelambda/activity/GetCustomerSpendCategoriesActivity.java:99-103 | 32769 copies of U+FFFF with an empty marketplace give spend id -2 and no spend map |
| CustomerSpendLambda.SpendId | LibrariesAndUtilities/ATACustomerServiceLambda/src/com/amazon/atacustomerservicelambda/activity/GetCustomerSpendCategoriesActivity.java:99 | the intended id lies in 0..6 |
| CustomerSpendLambda.HandleRequest | LibrariesAndUtilities/ATACustomerServiceLambda/src/com/amazon/atacustomerservicelambda/activity/GetCustomerSpendCategoriesActivity.java:92-103 | it throws InvalidParameterException exactly when either id is null; otherwise it returns a spend map of the table |
| CustomerSpendLambda.AsWrittenAgreesWithoutOverflow | LibrariesAndUtilities/ATACustomerServiceLambda/src/com/amazon/atacustomerservicelambda/activity/GetCustomerSpendCategoriesActivity.java:92-103 | while the two sums fit in an int, the code as written returns the intended table entry |
| CustomerSpendLambda.SwappingIdsChangesNothing | LibrariesAndUtilities/ATACustomerServiceLambda/src/com/amazon/atacustomerservicelambda/activity/GetCustomerSpendCategoriesActivity.java:99 | swapping the customer and marketplace ids gives the same response |
| CustomerSpendLambda.ReorderingCharactersChangesNothing | LibrariesAndUtilities/ATACustomerServiceLambda/src/com/amazon/atacustomerservicelambda/activity/GetCustomerSpendCategoriesActivity.java:99 | permuting the characters within either id gives the same response |
| CustomerSpendLambda.EmptySpendIds | LibrariesAndUtilities/ATACustomerServiceLambda/src/com/amazon/atacustomerservicelambda/activity/GetCustomerSpendCategoriesActivity.java:65-75 | the ids 3 and 4, and only they, carry the empty spend map |
| PrimeBenefitsLambda.Lookup | LibrariesAndUtilities/ATAPrimeClubServiceLambda/src/com/amazon/ataprimeclubservicelambda/activity/GetPrimeBenefitsActivity.java:52-63 | the table has an entry exactly for the ids 0 to 9 |
| PrimeBenefitsLambda.BenefitsIdAsWritten | LibrariesAndUtilities/ATAPrimeClubServiceLambda/src/com/amazon/ataprimeclubservicelambda/activity/GetPrimeBenefitsActivity.java:94 | the id as Java computes it lies in -9..9 |
| PrimeBenefitsLambda.HandleRequestAsWritten | LibrariesAndUtilities/ATAPrimeClubServiceLambda/src/com/amazon/ataprimeclubservicelambda/activity/GetPrimeBenefitsActivity.java:87-98 | it throws InvalidParameterException exactly when the customer id or the marketplace id is null |
| PrimeBenefitsLambda.OverflowingIdHasNullBenefits | LibrariesAndUtilities/ATAPrimeClubServiceLambda/src/com/amazon/ataprimeclubservicelambda/activity/GetPrimeBenefitsActivity.java:94-98 | 32769 copies of U+FFFF give benefits id -1 and a null benefit list |
| PrimeBenefitsLambda.BenefitsId | LibrariesAndUtilities/ATAPrimeClubServiceLambda/src/com/amazon/ataprimeclubservicelambda/activity/GetPrimeBenefitsActivity.java:94 | the intended id lies in 0..9 |
| PrimeBenefitsLambda.HandleRequest | LibrariesAndUtilities/ATAPrimeClubServiceLambda/src/com/amazon/ataprimeclubservicelambda/activity/GetPrimeBenefitsActivity.java:87-98 | it throws InvalidParameterException exactly when either id is null; otherwise it returns a non-null benefit list of the table |
| PrimeBenefitsLambda.AsWrittenAgreesWithoutOverflow | LibrariesAndUtilities/ATAPrimeClubServiceLambda/src/com/amazon/ataprimeclubservicelambda/activity/GetPrimeBenefitsActivity.java:87-98 | while the sum fits in an int, the code as written returns the intended table entry |
| PrimeBenefitsLambda.MarketplaceIdIsOnlyChecked | LibrariesAndUtilities/ATAPrimeClubServiceLambda/src/com/amazon/ataprimeclubservicelambda/activity/GetPrimeBenefitsActivity.java:90-94 | any two non-null marketplace ids give the same response |
| PrimeBenefitsLambda.ReorderingCharactersChangesNothing | LibrariesAndUtilities/ATAPrimeClubServiceLambda/src/com/amazon/ataprimeclubservicelambda/activity/GetPrimeBenefitsActivity.java:94 | permuting the customer id's characters gives the same response |
| PrimeBenefitsLambda.BenefitTiers | LibrariesAndUtilities/ATAPrimeClubServiceLambda/src/com/amazon/ataprimeclubservicelambda/activity/GetPrimeBenefitsActivity.java:52-63 | ids 0 to 2 are exactly the empty lists; ids 3 to 8 are exactly those with FREE_SHIPPING; id 9 is exactly MOM and KIDS |
| Reflection.Add | LibrariesAndUtilities/ATACurriculumTestInfrastructure/src/com/amazon/ata/test/reflect/MethodQuery.java:356-366 | adding to a set keeps it duplicate-free and adds exactly the element |
| Reflection.PermutationIsRearrangement | LibrariesAndUtilities/ATACurriculumTestInfrastructure/src/com/amazon/ata/test/reflect/MethodQuery.java:372-393 | every permutation has the same elements as the list, counted with multiplicity |
| Reflection.RearrangementIsPermutation | LibrariesAndUtilities/ATACurriculumTestInfrastructure/src/com/amazon/ata/test/reflect/MethodQuery.java:372-393 | every rearrangement of the list is among its permutations |
| Reflection.PermutationsAreRearrangements | LibrariesAndUtilities/ATACurriculumTestInfrastructure/src/com/amazon/ata/test/reflect/MethodQuery.java:372-393 | the permutations are exactly the lists with the same multiset of elements |
| ClassQueries.ValidPackageNameIsPatternFound | LibrariesAndUtilities/ATACurriculumTestInfrastructure/src/com/amazon/ata/test/reflect/ClassQuery.java:338-344 | a package name is accepted iff the regular expression finds a '.' with a run of non-'.' characters on each side |
| ClassQueries.PackageNameExamples | LibrariesAndUtilities/ATACurriculumTestInfrastructure/src/com/amazon/ata/test/reflect/ClassQuery.java:338-344 | "com", ".com", "com." and "com..amazon" are refused; "com.amazon" is accepted |
| ClassQueries.ClassQuery.Create | LibrariesAndUtilities/ATACurriculumTestInfrastructure/src/com/amazon/ata/test/reflect/ClassQuery.java:96-120 | the query holds the given filters, its subtype filter starts as Object, and its filters are consistent |
| ClassQueries.ClassQuery.InExactPackage | LibrariesAndUtilities/ATACurriculumTestInfrastructure/src/com/amazon/ata/test/reflect/ClassQuery.java:134-141 | IllegalArgumentException exactly for a null, empty or invalid package name; otherwise a fresh exact-package query with no name filter |
| ClassQueries.ClassQuery.InContainingPackage | LibrariesAndUtilities/ATACurriculumTestInfrastructure/src/com/amazon/ata/test/reflect/ClassQuery.java:156-163 | IllegalArgumentException exactly for a null, empty or invalid package name; otherwise a fresh containing-package query with no name filter |
| ClassQueries.ClassQuery.WithExactSimpleName | LibrariesAndUtilities/ATACurriculumTestInfrastructure/src/com/amazon/ata/test/reflect/ClassQuery.java:178-191 | IllegalStateException once any name filter is set, then IllegalArgumentException for a null or empty name; otherwise a new query with the name and this one's other filters, subtype reset to Object |
| ClassQueries.ClassQuery.WithSimpleNameContaining | LibrariesAndUtilities/ATACurriculumTestInfrastructure/src/com/amazon/ata/test/reflect/ClassQuery.java:212-228 | IllegalStateException after an exact name, then IllegalArgumentException for a null or empty substring; otherwise a new query whose substrings are the old ones plus this one |
| ClassQueries.ClassQuery.WithSubTypeOf | LibrariesAndUtilities/ATACurriculumTestInfrastructure/src/com/amazon/ata/test/reflect/ClassQuery.java:230-233 | changes this query's subtype filter and returns this very query |
| ClassQueries.ClassQuery.ClassNameMatchesConstraints | LibrariesAndUtilities/ATACurriculumTestInfrastructure/src/com/amazon/ata/test/reflect/ClassQuery.java:307-319 | the early-returning loop answers: equal to the exact name when one is set, otherwise containing every substring |
| ClassQueries.ClassQuery.FindClasses | LibrariesAndUtilities/ATACurriculumTestInfrastructure/src/com/amazon/ata/test/reflect/ClassQuery.java:282-296 | exactly the scanned classes that pass the package and name filters, each listed once |
| ClassQueries.ClassQuery.FindClass | LibrariesAndUtilities/ATACurriculumTestInfrastructure/src/com/amazon/ata/test/reflect/ClassQuery.java:265-275 | NoClassFoundException iff nothing matches, MultipleClassesFoundException iff two distinct classes match; otherwise the one match |
| MethodQueries.InType | LibrariesAndUtilities/ATACurriculumTestInfrastructure/src/com/amazon/ata/test/reflect/MethodQuery.java:137-143 | IllegalArgumentException exactly for a null type; otherwise a query on the type with no filter |
| MethodQueries.WithReturnType | LibrariesAndUtilities/ATACurriculumTestInfrastructure/src/com/amazon/ata/test/reflect/MethodQuery.java:163-172 | IllegalStateException once a return type is set, then IllegalArgumentException for null; otherwise only the return type changes |
| MethodQueries.WithVoidReturnType | LibrariesAndUtilities/ATACurriculumTestInfrastructure/src/com/amazon/ata/test/reflect/MethodQuery.java:185-191 | IllegalStateException exactly when a return type is set; otherwise only the return type changes, to void |
| MethodQueries.WithExactName | LibrariesAndUtilities/ATACurriculumTestInfrastructure/src/com/amazon/ata/test/reflect/MethodQuery.java:207-216 | IllegalStateException after any name filter, then IllegalArgumentException for a null or empty name; otherwise only the exact name changes |
| MethodQueries.WithNameContaining | LibrariesAndUtilities/ATACurriculumTestInfrastructure/src/com/amazon/ata/test/reflect/MethodQuery.java:235-247 | IllegalStateException after an exact name, then IllegalArgumentException for a null or empty substring; otherwise only the substring set changes, gaining this one |
| MethodQueries.CheckArgTypes | LibrariesAndUtilities/ATACurriculumTestInfrastructure/src/com/amazon/ata/test/reflect/MethodQuery.java:279-297 | accepted iff the list is non-null, has at most 8 entries and no null entry, giving a copy of it; otherwise IllegalArgumentException |
| MethodQueries.WithExactArgTypes | LibrariesAndUtilities/ATACurriculumTestInfrastructure/src/com/amazon/ata/test/reflect/MethodQuery.java:279-305 | IllegalStateException once argument types are set; otherwise it succeeds iff the checks pass, and only the argument types change |
| MethodQueries.FilterPermutations | LibrariesAndUtilities/ATACurriculumTestInfrastructure/src/com/amazon/ata/test/reflect/MethodQuery.java:372-393 | a single filter set without argument types, or one filter set per permutation of the argument types |
| MethodQueries.FilterPermutationsMatch | LibrariesAndUtilities/ATACurriculumTestInfrastructure/src/com/amazon/ata/test/reflect/MethodQuery.java:372-393 | some filter set admits a method's parameters iff they are a rearrangement of the argument types |
| MethodQueries.AddMethods | LibrariesAndUtilities/ATACurriculumTestInfrastructure/src/com/amazon/ata/test/reflect/MethodQuery.java:356-366 | the set gains exactly the searched methods that pass the fixed filters and this parameter filter: an interface's public methods, inherited ones included, or a class's declared methods |
| MethodQueries.FilterOutTestMethods | LibrariesAndUtilities/ATACurriculumTestInfrastructure/src/com/amazon/ata/test/reflect/MethodQuery.java:430-435 | exactly the methods other than `$jacocoInit` remain |
| MethodQueries.FindMethods | LibrariesAndUtilities/ATACurriculumTestInfrastructure/src/com/amazon/ata/test/reflect/MethodQuery.java:356-366 | exactly the methods the query matches, with argument types in any order and `$jacocoInit` excluded, each listed once. For an interface these come from its public methods, inherited ones included; for a class, from its declared methods |
| MethodQueries.FindMethod | LibrariesAndUtilities/ATACurriculumTestInfrastructure/src/com/amazon/ata/test/reflect/MethodQuery.java:339-349 | NoMethodFoundException iff no searched method matches, MultipleMethodsFoundException iff two distinct ones match; otherwise the one match. An interface's inherited methods are searched too |
| MethodQueries.AtMostOneReturnType | LibrariesAndUtilities/ATACurriculumTestInfrastructure/src/com/amazon/ata/test/reflect/MethodQuery.java:163-191 | once a return type is set, neither return-type filter can be added |
| MethodQueries.SubstringsAreConjoined | LibrariesAndUtilities/ATACurriculumTestInfrastructure/src/com/amazon/ata/test/reflect/MethodQuery.java:235-247 | two substring filters both apply: a method passes only if its name contains each |
| ConstructorQueries.InClass | LibrariesAndUtilities/ATACurriculumTestInfrastructure/src/com/amazon/ata/test/reflect/ConstructorQuery.java:85-91 | IllegalArgumentException exactly for a null class; otherwise a query on the class with no filter |
| ConstructorQueries.WithExactArgTypes | LibrariesAndUtilities/ATACurriculumTestInfrastructure/src/com/amazon/ata/test/reflect/ConstructorQuery.java:111-133 | IllegalStateException once argument types are set; otherwise it succeeds iff the shared checks pass, taking the checked list |
| ConstructorQueries.WithNoArgs | LibrariesAndUtilities/ATACurriculumTestInfrastructure/src/com/amazon/ata/test/reflect/ConstructorQuery.java:97-99 | IllegalStateException exactly when argument types are set; otherwise the filter is the empty list |
| ConstructorQueries.GetConstructor | LibrariesAndUtilities/ATACurriculumTestInfrastructure/src/com/amazon/ata/test/reflect/ConstructorQuery.java:196-206 | found iff the class has a public constructor with exactly these parameter types, and then it is that one |
| ConstructorQueries.FindConstructors | LibrariesAndUtilities/ATACurriculumTestInfrastructure/src/com/amazon/ata/test/reflect/ConstructorQuery.java:185-208 | exactly the public constructors whose parameters rearrange the given types, or every public one without a filter, each listed once |
| ConstructorQueries.FindConstructor | LibrariesAndUtilities/ATACurriculumTestInfrastructure/src/com/amazon/ata/test/reflect/ConstructorQuery.java:167-178 | an exception iff nothing matches, another iff two distinct constructors match; otherwise the one match |
| ConstructorQueries.EmptyListMeansNoArguments | LibrariesAndUtilities/ATACurriculumTestInfrastructure/src/com/amazon/ata/test/reflect/ConstructorQuery.java:190-195 | with an empty list, only a public no-argument constructor matches |
| Introspection.AssertDirectlyExtends | LibrariesAndUtilities/ATACurriculumTestInfrastructure/src/com/amazon/ata/test/assertions/IntrospectionAssertions.java:33-39 | with an expected class, passes iff the direct superclass is that class; with a null expectation, passes iff there is no superclass (an interface or Object) |
| Introspection.AtMostOneDirectSuperclass | LibrariesAndUtilities/ATACurriculumTestInfrastructure/src/com/amazon/ata/test/assertions/IntrospectionAssertions.java:33-39 | two expectations that both pass are both null or name the same class, since a class directly extends at most one |
| Introspection.AssertImplementsInterface | LibrariesAndUtilities/ATACurriculumTestInfrastructure/src/com/amazon/ata/test/assertions/IntrospectionAssertions.java:51-68 | passes iff the target is an interface, the subtype is not, and the subtype is assignable to it |
| Introspection.AssertDoesNotImplementInterface | LibrariesAndUtilities/ATACurriculumTestInfrastructure/src/com/amazon/ata/test/assertions/IntrospectionAssertions.java:79-97 | passes iff the target is an interface, the subtype is not, and the subtype is not assignable to it |
| Introspection.InterfaceAssertionsNeedAClassAndAnInterface | LibrariesAndUtilities/ATACurriculumTestInfrastructure/src/com/amazon/ata/test/assertions/IntrospectionAssertions.java:51-97 | both interface assertions fail when the subtype is an interface or the target is not |
| Introspection.InterfaceAssertionsAreComplementary | LibrariesAndUtilities/ATACurriculumTestInfrastructure/src/com/amazon/ata/test/assertions/IntrospectionAssertions.java:51-97 | for a class and an interface, exactly one of the two passes |
| Introspection.RemoveFirst | LibrariesAndUtilities/ATACurriculumTestInfrastructure/src/com/amazon/ata/test/assertions/IntrospectionAssertions.java:114-128 | `List.remove(Object)` takes one occurrence out of the multiset when there is one, and leaves the list alone otherwise |
| Introspection.AssertContainsAll | LibrariesAndUtilities/ATACurriculumTestInfrastructure/src/com/amazon/ata/test/assertions/IntrospectionAssertions.java:114-149 | the remove-as-you-go loop passes iff the expected names, counted with multiplicity, are among the found ones |
| Introspection.AssertClassContainsMemberVariableTypes | LibrariesAndUtilities/ATACurriculumTestInfrastructure/src/com/amazon/ata/test/assertions/IntrospectionAssertions.java:114-128 | passes iff the expected type names form a sub-multiset of the declared field types |
| Introspection.AssertClassContainsMemberMethodNames | LibrariesAndUtilities/ATACurriculumTestInfrastructure/src/com/amazon/ata/test/assertions/IntrospectionAssertions.java:139-149 | passes iff the expected names form a sub-multiset of the public method names, one entry per overload |
| Introspection.ContainsAllIgnoresOrder | LibrariesAndUtilities/ATACurriculumTestInfrastructure/src/com/amazon/ata/test/assertions/IntrospectionAssertions.java:114-149 | the order of the expected names does not matter, and nothing expected always passes |
| Introspection.AssertClassDoesNotContainMemberMethodNames | LibrariesAndUtilities/ATACurriculumTestInfrastructure/src/com/amazon/ata/test/assertions/IntrospectionAssertions.java:160-171 | passes iff no listed name is a public method name |
| Introspection.AnnotationsIncludeMock | LibrariesAndUtilities/ATACurriculumTestInfrastructure/src/com/amazon/ata/test/assertions/IntrospectionAssertions.java:212-222 | true iff some annotation has the Mock type |
| Introspection.AssertMemberMocked | LibrariesAndUtilities/ATACurriculumTestInfrastructure/src/com/amazon/ata/test/assertions/IntrospectionAssertions.java:183-204 | a null field fails; otherwise it passes iff the field carries the Mock annotation |
| AtaAssertions.AssertContains | LibrariesAndUtilities/ATACurriculumTestInfrastructure/src/com/amazon/ata/test/assertions/AtaAssertions.java:27-29 | NullPointerException exactly for a null argument; otherwise it passes iff the expected string occurs in the content |
| AtaAssertions.ContainsItselfAndEmpty | LibrariesAndUtilities/ATACurriculumTestInfrastructure/src/com/amazon/ata/test/assertions/AtaAssertions.java:27-29 | every string contains itself and the empty string |
| AtaAssertions.AssertCloseWithin | LibrariesAndUtilities/ATACurriculumTestInfrastructure/src/com/amazon/ata/test/assertions/AtaAssertions.java:120-139 | IllegalArgumentException exactly for a null argument or a negative margin; otherwise it passes iff the distance between the values is within the margin |
| AtaAssertions.AssertClose | LibrariesAndUtilities/ATACurriculumTestInfrastructure/src/com/amazon/ata/test/assertions/AtaAssertions.java:101-106 | a null expected is refused first; otherwise it passes iff the distance is within one percent of the expected magnitude |
| AtaAssertions.AssertCloseWithinIsSymmetric | LibrariesAndUtilities/ATACurriculumTestInfrastructure/src/com/amazon/ata/test/assertions/AtaAssertions.java:120-139 | swapping expected and actual changes neither the verdict nor whether it throws |
| AtaAssertions.EqualValuesAreClose | LibrariesAndUtilities/ATACurriculumTestInfrastructure/src/com/amazon/ata/test/assertions/AtaAssertions.java:101-139 | equal values pass under every non-negative margin and under the one-percent margin |
| AtaAssertions.WiderMarginStillPasses | LibrariesAndUtilities/ATACurriculumTestInfrastructure/src/com/amazon/ata/test/assertions/AtaAssertions.java:120-139 | a wider margin never turns a pass into a failure |

## Left out

- `invoke-api.py`: process spawning, file and JSON I/O and printing; it has no decision logic.
- The DAOs, activities, Dagger modules and injectors: wiring over DynamoDB and service clients. Their answers are parameters instead: `CustomerData` for the predicates, and `contentsFor`/`groupsFor` for the selection.
- The lambdas' `Thread.sleep`, all logging, `GeneratedAdvertisement`'s random UUID and `EncryptionUtil`: effects outside the decision logic.
- `TargetingEvaluator`'s executor and futures. The evaluation is the sequential AND that `allMatch` computes, stopping at the first result that is not TRUE. `Futures.getUnchecked` wraps a predicate's exception in a RuntimeException; the model's error carries the predicate's own exception instead.
- Click-through rates are doubles in the source. Here they are `real` and used only for ordering and as map keys, so NaN and rounding are not modelled.
- `Integer.parseInt` accepts only ASCII digits here. Java also accepts other Unicode decimal digits.
- `equalsIgnoreCase` folds ASCII letters only.
- `Character.isWhitespace` is a fixed table of current Java's whitespace code points. Supplementary characters, which need a surrogate pair, are not classified.
- `TargetingPredicateType.java` and `Benefit.java` are not part of this model.
  - The wire type is a datatype with the six cases the translator switches on.
  - `Benefit.values()` is the `benefitValues` parameter.
- The generated Coral value classes (profile, spend, benefits, requests and responses) are plain datatypes. A Prime benefit's metadata is not modelled; only its name matters to the predicate.
- `toType` returns null for a predicate class it does not know. The model has no such class.
- `ClassQuery`'s supertype list and `classHasAllSupertypes`: the public builders always leave that list empty, so the check always passes.
- The `findXOrFail` wrappers, the `toString` methods, and the regex and PlantUML helpers of the test infrastructure are not modelled.
- The Reflections library's scan of a package for subtypes is the `scan` parameter of `FindClasses`/`FindClass`.
- `ReflectionUtils.getMethods` searches `getMethods()` for an interface and `getDeclaredMethods()` for a class; the model takes both lists as fields of the class. Methods carry their declaring type, so one signature inherited from two superinterfaces stays two methods, as `Method.equals` keeps them apart. Its return-type filter is modelled as equality of type names. The parameter filter is modelled as equality of the parameter list.
- `AdSelection.SortByCtr`: Java's stream sort is stable. The contract states sorted and a permutation, but not stability; the winning group's rate does not depend on it.
- `MethodQueries.FindMethods`, `ConstructorQueries.FindConstructors` and `ClassQueries.ClassQuery.FindClasses` return hash sets. The model returns duplicate-free lists in a fixed order, so the iteration order of the Java set is not captured.

## Findings

| source | as written | input that shows it | evidently intended | confidence | as-written member | corrected member |
|---|---|---|---|---|---|---|
| LibrariesAndUtilities/ATACustomerServiceLambda/src/com/amazon/atacustomerservicelambda/activity/GetCustomerProfileActivity.java:90 | `chars().sum() + charAt(0)` wraps past `Integer.MAX_VALUE`, and `%` keeps the sign of a negative sum, so the id can be negative and `PROFILES.get` returns null | a customer id of 32769 characters U+FFFF: the sum wraps to -2147385346 and the id is -6 | an id in 0..9, so that every non-empty customer id gets one of the ten profiles | not executed | CustomerProfileLambda.OverflowingIdHasNoProfile | CustomerProfileLambda.HandleRequest |
| LibrariesAndUtilities/ATACustomerServiceLambda/src/com/amazon/atacustomerservicelambda/activity/GetCustomerSpendCategoriesActivity.java:99 | the two character sums wrap, and `% 7` of a negative sum is negative, so `SPEND.get` returns null | customer id of 32769 characters U+FFFF and an empty marketplace id: the sum wraps to -2147450881 and the id is -2 | an id in 0..6, so that every request with both ids gets a spend map | not executed | CustomerSpendLambda.OverflowingIdHasNoSpend | CustomerSpendLambda.HandleRequest |
| LibrariesAndUtilities/ATAPrimeClubServiceLambda/src/com/amazon/ataprimeclubservicelambda/activity/GetPrimeBenefitsActivity.java:94 | the character sum wraps, and `% 10` of a negative sum is negative, so `BENEFITS.get` returns null, though the method promises a list for every valid call | customer id of 32769 characters U+FFFF: the sum wraps to -2147450881 and the id is -1 | an id in 0..9, so that every valid request gets a (possibly empty) benefit list | not executed | PrimeBenefitsLambda.OverflowingIdHasNullBenefits | PrimeBenefitsLambda.HandleRequest |
