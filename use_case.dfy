/** A catalog entry ("use case") as the source reads it from its JSON data.
    Every attribute the code treats as optional is an `Option`; `Some("")`
    is an empty string, which the source's truthiness checks treat like an
    absent value. */
module UseCases {
  import opened Wrappers

  datatype UseCase = UseCase(
    id: string,
    title: Option<string>,
    description: Option<string>,
    category: Option<string>,
    subcategory: Option<string>,
    tags: Option<seq<string>>,
    examplePrompts: Option<seq<string>>,
    surfaces: Option<seq<string>>,   // copilot_surface
    modes: Option<seq<string>>,      // mode
    riskLevel: Option<string>,       // risk_level
    languages: Option<seq<string>>,
    timeSavedMin: Option<int>,       // metrics.time_saved_min
    score: Option<int>)              // added by search and by related-item scoring

  /** A string attribute that is present and non-empty (JavaScript truthiness). */
  predicate Truthy(o: Option<string>) {
    o.Some? && o.value != ""
  }

  /** `o || []` for a list attribute. */
  function ListOrEmpty(o: Option<seq<string>>): seq<string> {
    if o.Some? then o.value else []
  }

  /** `o || ''` for a string attribute. */
  function TextOrEmpty(o: Option<string>): string {
    if o.Some? then o.value else ""
  }

  /** `x || 0` for a numeric attribute. */
  function NumberOrZero(o: Option<int>): int {
    if o.Some? then o.value else 0
  }
}
