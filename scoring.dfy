/** Pieces shared by the two `calculateScores` functions (the background
    worker's and the popup's): the score record, `Math.round`, the reading of
    the VirusTotal vote counts and of the Safe Browsing `matches` list, and
    the verdict thresholds. */
module Scoring {
  import opened Js

  /** The verdict `calculateScores` attaches to a total score. */
  datatype Status = Safe | Caution | Suspicious | Dangerous {
    function Name(): string {
      match this
      case Safe => "SAFE"
      case Caution => "CAUTION"
      case Suspicious => "SUSPICIOUS"
      case Dangerous => "DANGEROUS"
    }
  }

  /** `{ totalScore, gsbScore, vtScore, status }`; the popup's variant leaves
      `status` out. */
  datatype Scores = Scores(totalScore: int, gsbScore: int, vtScore: int, status: Option<Status>)

  /** Every score lies in [0, 100]. */
  predicate InRange(s: Scores) {
    0 <= s.totalScore <= 100 && 0 <= s.gsbScore <= 100 && 0 <= s.vtScore <= 100
  }

  /** `Math.round` on an exact rational: halves go up. */
  function RoundHalfUp(x: real): int {
    (x + 0.5).Floor
  }

  /** `Math.max(0, x)` */
  function MaxZero(x: int): int {
    if x < 0 then 0 else x
  }

  /** `Math.min(a, b)` */
  function MinReal(a: real, b: real): real {
    if a <= b then a else b
  }

  /** The four VirusTotal counts, each read as `stats.<name> || 0`. */
  datatype Votes = Votes(malicious: int, suspicious: int, harmless: int, undetected: int) {
    function Total(): int { malicious + suspicious + harmless + undetected }
    function Threats(): int { malicious + suspicious }
    function Clean(): int { harmless + undetected }
    /** VirusTotal never reports a negative count. */
    predicate NonNegative() { malicious >= 0 && suspicious >= 0 && harmless >= 0 && undetected >= 0 }
  }

  /** `stats.<name> || 0` for a numeric field; anything else reads as 0. */
  function Count(v: Option<Json>): int {
    if v.Some? && v.value.JNum? then v.value.n else 0
  }

  function VotesIn(stats: Option<Json>): Votes {
    Votes(Count(Prop(stats, "malicious")), Count(Prop(stats, "suspicious")),
          Count(Prop(stats, "harmless")), Count(Prop(stats, "undetected")))
  }

  /** `safeBrowsing.matches && safeBrowsing.matches.length > 0` */
  predicate HasMatches(safeBrowsing: Json) {
    var m := Prop(Some(safeBrowsing), "matches");
    Truthy(m) && LengthPositive(m.value)
  }

  /** The verdict thresholds, checked from the bottom up. */
  function StatusFor(total: int): (st: Status)
    ensures st == Dangerous <==> total < 30
    ensures st == Suspicious <==> 30 <= total < 60
    ensures st == Caution <==> 60 <= total < 80
    ensures st == Safe <==> 80 <= total
  {
    if total < 30 then Dangerous
    else if total < 60 then Suspicious
    else if total < 80 then Caution
    else Safe
  }

  /** A higher total never gets a more alarming verdict. */
  lemma StatusMonotone(a: int, b: int)
    requires a <= b
    ensures Severity(StatusFor(b)) <= Severity(StatusFor(a))
  {
  }

  function Severity(st: Status): nat {
    match st
    case Safe => 0
    case Caution => 1
    case Suspicious => 2
    case Dangerous => 3
  }

  /** A rounded percentage of a part of a non-negative whole lies in [0, 100]. */
  lemma PercentInRange(part: int, whole: int)
    requires 0 <= part <= whole && 0 < whole
    ensures 0 <= RoundHalfUp(part as real / whole as real * 100.0) <= 100
  {
    var q := part as real / whole as real;
    assert q * whole as real == part as real;
    assert 0.0 <= q <= 1.0;
  }

  /** `Math.round(b - 0.4 * p)` for a whole percentage `p`: `0.4 * p` is never
      a half-integer, so the rounding is an integer division. */
  lemma RoundPenalty(b: int, p: int)
    requires 0 <= p
    ensures RoundHalfUp(b as real - p as real * 0.4) == b - (4 * p + 5) / 10
  {
    var k := (4 * p + 5) / 10;
    var r := (4 * p + 5) % 10;
    assert 4 * p + 5 == 10 * k + r;
    assert r != 0;
    assert b as real - p as real * 0.4 + 0.5 == (b - k) as real + (10 - r) as real / 10.0;
  }

  /** Rounding an integer changes nothing. */
  lemma RoundWhole(n: int)
    ensures RoundHalfUp(n as real) == n
  {
  }
}
