/** The oil-token status enumeration: its database rendering from the
    schema migration, and the seeder's reading of status text from seed
    data. */
module TokenStatuses {
  import opened Wrappers

  datatype TokenStatus = Pending | Active | Sold | Expired | Cancelled

  /** `TokenStatus::iter()`: the variants in declaration order. */
  const Variants: seq<TokenStatus> := [Pending, Active, Sold, Expired, Cancelled]

  /** The value list written out for the `status` column. */
  const StatusColumnValues: seq<string> := ["pending", "active", "sold", "expired", "cancelled"]

  predicate IsLowercaseWord(s: string)
  {
    |s| > 0 && forall i :: 0 <= i < |s| ==> 'a' <= s[i] <= 'z'
  }

  /** `as_str`: a variant's lowercase name, one of the column's allowed
      values. */
  function AsStr(v: TokenStatus): (s: string)
    ensures s in StatusColumnValues
    ensures IsLowercaseWord(s)
  {
    match v
    case Pending => "pending"
    case Active => "active"
    case Sold => "sold"
    case Expired => "expired"
    case Cancelled => "cancelled"
  }

  /** Distinct variants have distinct names. */
  lemma AsStrInjective(a: TokenStatus, b: TokenStatus)
    ensures AsStr(a) == AsStr(b) <==> a == b
  {
  }

  /** The values of the `token_status` database type, `as_str` over the
      variants in declaration order, are the column's allowed values in the
      same order. */
  function EnumTypeValues(): (vs: seq<string>)
    ensures vs == StatusColumnValues
  {
    seq(|Variants|, i requires 0 <= i < |Variants| => AsStr(Variants[i]))
  }

  /** The column's allowed values are exactly the names `as_str` produces. */
  lemma ColumnValuesAreAsStrImage(s: string)
    ensures s in StatusColumnValues <==> exists v :: AsStr(v) == s
  {
    if s in StatusColumnValues {
      assert AsStr(StatusFromSeed(s).value) == s;
    }
  }

  /** The seeder's status `match`: the five lowercase names map to their
      variants, and every other string, whatever its case, falls back to
      `Active`; the result is never absent. */
  function StatusFromSeed(s: string): (r: Option<TokenStatus>)
    ensures r.Some?
    ensures s in StatusColumnValues ==> AsStr(r.value) == s
    ensures s !in StatusColumnValues ==> r.value == Active
  {
    Some(
      if s == "active" then Active
      else if s == "pending" then Pending
      else if s == "sold" then Sold
      else if s == "expired" then Expired
      else if s == "cancelled" then Cancelled
      else Active)
  }

  /** Reading back a variant's name gives the variant. */
  lemma SeedRoundTrip(v: TokenStatus)
    ensures StatusFromSeed(AsStr(v)) == Some(v)
  {
  }

  /** The seeder's reading loses information: `active` and any unknown
      string, such as the capitalised `Sold`, read the same. */
  lemma SeedNotInjective()
    ensures "active" != "Sold" && StatusFromSeed("active") == StatusFromSeed("Sold") == Some(Active)
  {
    assert "Sold" !in StatusColumnValues;
  }
}
