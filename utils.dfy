/**
 * The match-quality banding of lib/utils.ts: a specification-match
 * percentage becomes one of four labels, each with its colour.
 */
module Utils {

  /** The `label` (a Dafny keyword, so `name` here) and the `color` class of a band. */
  datatype MatchQuality = MatchQuality(name: string, color: string)

  /** `getMatchQuality`. */
  function GetMatchQuality(percentage: real): MatchQuality {
    if percentage >= 90.0 then MatchQuality("Excellent", "text-green-600")
    else if percentage >= 70.0 then MatchQuality("Good", "text-blue-600")
    else if percentage >= 50.0 then MatchQuality("Fair", "text-yellow-600")
    else MatchQuality("Poor", "text-red-600")
  }

  /** The bands in increasing order, 0 for "Poor" up to 3 for "Excellent". */
  function Rank(quality: MatchQuality): (rank: nat)
    ensures rank <= 3
  {
    match quality.name
    case "Excellent" => 3
    case "Good" => 2
    case "Fair" => 1
    case _ => 0
  }

  /**
   * Each label is given exactly on its band: "Excellent" (green) from 90,
   * "Good" (blue) from 70 below 90, "Fair" (yellow) from 50 below 70, and
   * "Poor" (red) below 50.
   */
  lemma GetMatchQualitySpec(percentage: real)
    ensures GetMatchQuality(percentage).name == "Excellent" <==> percentage >= 90.0
    ensures GetMatchQuality(percentage).name == "Good" <==> 70.0 <= percentage < 90.0
    ensures GetMatchQuality(percentage).name == "Fair" <==> 50.0 <= percentage < 70.0
    ensures GetMatchQuality(percentage).name == "Poor" <==> percentage < 50.0
    ensures GetMatchQuality(percentage).color == match GetMatchQuality(percentage).name
      case "Excellent" => "text-green-600"
      case "Good" => "text-blue-600"
      case "Fair" => "text-yellow-600"
      case _ => "text-red-600"
  {
  }

  /** A higher percentage never gets a lower band. */
  lemma GetMatchQualityMonotone(p: real, q: real)
    requires p <= q
    ensures Rank(GetMatchQuality(p)) <= Rank(GetMatchQuality(q))
  {
    GetMatchQualitySpec(p);
    GetMatchQualitySpec(q);
  }
}
