/** What the two embed records share: merging a data source into an embed
    fills optional fields, dropping empty texts and keeping an existing
    nested record while updating some of its fields. */
module Embeds {
  import opened Wrappers

  /** `Some(text).filter(|s| !s.is_empty())`: an empty text counts as
      absent. */
  function NonEmpty(text: string): (r: Option<string>)
    ensures r.None? <==> |text| == 0
    ensures r.Some? ==> r.value == text
  {
    if |text| == 0 then None else Some(text)
  }

  /** `Option::get_or_insert`: the value already present, else `default`. */
  function GetOrInsert<T>(o: Option<T>, default: T): (r: T)
    ensures o.Some? ==> r == o.value
    ensures o.None? ==> r == default
  {
    match o
    case Some(v) => v
    case None => default
  }
}
