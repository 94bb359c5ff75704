/** The fleet this deployment follows: five makes, model years from 2010. */
module Market {
  import opened Text

  const MIN_MODEL_YEAR: nat := 2010
  const MAX_SEED_YEAR: nat := 2024
  const SEED_YEAR_STEP: nat := 2

  const TOP_MAKES: seq<string> := ["Toyota", "Honda", "Hyundai", "Kia", "Mercedes-Benz"]

  /** Case, blanks, dashes and underscores do not matter in a make. */
  function Normalize(s: string): string {
    if s == "" then ""
    else (if s[0] == ' ' || s[0] == '-' || s[0] == '_' then "" else [UpperChar(s[0])]) + Normalize(s[1..])
  }

  predicate IsTopMake(make: string) {
    exists i :: 0 <= i < |TOP_MAKES| && Normalize(TOP_MAKES[i]) == Normalize(make)
  }

  predicate InMarketScope(make: string, year: int) {
    IsTopMake(make) && year >= MIN_MODEL_YEAR
  }
}
