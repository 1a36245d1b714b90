/**
 * The customer-service value types the targeting predicates read: the fixed
 * tables of age ranges and spend categories, a customer profile and the
 * spend recorded for one category.
 */
module CustomerService {
  import opened Java

  /** AgeRange.values(): the eight age-range names. */
  const AGE_RANGE_VALUES: seq<string> := [
    "UNDER_18", "AGE_18_TO_21", "AGE_22_TO_25", "AGE_26_TO_30",
    "AGE_31_TO_35", "AGE_36_TO_45", "AGE_46_TO_60", "OVER_60"
  ]

  /** Category.values(): the thirteen spend-category names. */
  const CATEGORY_VALUES: seq<string> := [
    "PRIME_VIDEO", "AMAZON_MUSIC", "KINDLE", "ECHO", "FRESH", "TECHNICAL_BOOKS",
    "CHILDRENS_BOOKS", "MAGAZINES", "VIDEO_GAMES", "ELECTRONICS", "COMPUTERS", "HOME", "PET"
  ]

  /** A customer profile; every field may be null. */
  datatype CustomerProfile = CustomerProfile(homeState: Option<string>, ageRange: Option<string>, parent: Option<bool>)

  /** What a customer spent in one category. */
  datatype Spend = Spend(numberOfPurchases: Int32, usdSpent: Int32)
}
