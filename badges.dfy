/** The toolbar badge: a short glyph over a background colour, and the verdict
    reading that the tab-keyed background workers share. */
module Badges {
  import opened Js

  datatype Badge = Badge(text: string, color: string)

  const DangerBadge: Badge := Badge("!", "#FF0000")
  const WarnBadge: Badge := Badge("?", "#FFA500")
  const CautionBadge: Badge := Badge("◐", "#FFC107")
  const ErrorBadge: Badge := Badge("X", "#666666")
  const SafeBadge: Badge := Badge("✓", "#00AA00")

  /** `(x?.verdict || x?.final_verdict || '').toUpperCase()`: the first truthy
      of the two fields, upper-cased; a truthy field that is not a string has
      no `toUpperCase` and the expression throws. */
  function VerdictText(x: Option<Json>): Completion<string> {
    var v := Or(Or(Prop(x, "verdict"), Prop(x, "final_verdict")), Some(JStr("")));
    if v.Some? && v.value.JStr? then Normal(Upper(v.value.s)) else Abrupt(NotAFunction)
  }
}
