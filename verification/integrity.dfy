/** The integrity summary of a session: the badge that grades it and the
    list of flag badges shown beside it. */
module Integrity {
  import opened Wrappers
  import opened Text
  import opened Html

  /** A recorded integrity flag; `kind` is its `type` field. */
  datatype Flag = Flag(kind: Option<string>)

  /** The integrity record; a missing field is `None`. */
  datatype IntegrityRecord = IntegrityRecord(flags: Option<seq<Flag>>, visibilityChanges: Option<int>, rapidGuessingCount: Option<int>)

  datatype Grade = Good | Moderate | Low

  /** Tab switches from which a flagged session is graded low. */
  const LowVisibilityChanges: int := 3
  /** Rapid guesses from which a flagged session is graded low. */
  const LowRapidGuesses: int := 5
  /** The most flag badges shown. */
  const MaxShownFlags: nat := 8

  function FlagsOf(i: IntegrityRecord): seq<Flag>
  {
    if i.flags.Some? then i.flags.value else []
  }

  function OrZero(x: Option<int>): int
  {
    if x.Some? then x.value else 0
  }

  /** The decision rule of `integrityBadge`. */
  function GradeOf(i: IntegrityRecord): (g: Grade)
    ensures g == Good <==> |FlagsOf(i)| == 0
    ensures g == Low <==> |FlagsOf(i)| > 0 && (OrZero(i.visibilityChanges) >= LowVisibilityChanges || OrZero(i.rapidGuessingCount) >= LowRapidGuesses)
    ensures g == Moderate <==> |FlagsOf(i)| > 0 && OrZero(i.visibilityChanges) < LowVisibilityChanges && OrZero(i.rapidGuessingCount) < LowRapidGuesses
  {
    if |FlagsOf(i)| == 0 then Good
    else if OrZero(i.visibilityChanges) >= LowVisibilityChanges || OrZero(i.rapidGuessingCount) >= LowRapidGuesses then Low
    else Moderate
  }

  function BadgeHtml(g: Grade): string
  {
    match g
    case Good => "<span class=\"badge good\">Good</span>"
    case Moderate => "<span class=\"badge warn\">Moderate</span>"
    case Low => "<span class=\"badge bad\">Low</span>"
  }

  /** `integrityBadge(integrity)`: the markup of the grade. */
  function IntegrityBadge(i: IntegrityRecord): (r: string)
    ensures |FlagsOf(i)| == 0 ==> r == BadgeHtml(Good)
    ensures |FlagsOf(i)| > 0 && (OrZero(i.visibilityChanges) >= LowVisibilityChanges || OrZero(i.rapidGuessingCount) >= LowRapidGuesses)
      ==> r == BadgeHtml(Low)
    ensures |FlagsOf(i)| > 0 && OrZero(i.visibilityChanges) < LowVisibilityChanges && OrZero(i.rapidGuessingCount) < LowRapidGuesses
      ==> r == BadgeHtml(Moderate)
  {
    BadgeHtml(GradeOf(i))
  }

  /** Different grades are shown differently. */
  lemma BadgesDiffer(g: Grade, h: Grade)
    requires g != h
    ensures BadgeHtml(g) != BadgeHtml(h)
  {
    assert BadgeHtml(g)[19] != BadgeHtml(h)[19] || |BadgeHtml(g)| != |BadgeHtml(h)|;
  }

  function Severity(g: Grade): nat
  {
    match g
    case Good => 0
    case Moderate => 1
    case Low => 2
  }

  /** More tab switches or rapid guesses never improve the grade of a
      flagged session, and neither do more flags. */
  lemma GradeMonotone(i: IntegrityRecord, j: IntegrityRecord)
    requires |FlagsOf(i)| <= |FlagsOf(j)|
    requires OrZero(i.visibilityChanges) <= OrZero(j.visibilityChanges)
    requires OrZero(i.rapidGuessingCount) <= OrZero(j.rapidGuessingCount)
    ensures Severity(GradeOf(i)) <= Severity(GradeOf(j))
  {
  }

  const NoFlagsBadge: string := "<span class=\"badge good\">No flags</span>"

  /** One flag badge, its type escaped. */
  function FlagBadge(f: Flag): string
  {
    "<div class=\"badge warn\">" + EscapeHtml(f.kind) + "</div>"
  }

  function Min(a: nat, b: nat): nat
  {
    if a < b then a else b
  }

  /** The badges of `flags.slice(0, 8)`. */
  function ShownFlags(flags: seq<Flag>): (r: seq<string>)
    ensures |r| == Min(MaxShownFlags, |flags|)
    ensures forall k :: 0 <= k < |r| ==> r[k] == FlagBadge(flags[k])
  {
    seq(Min(MaxShownFlags, |flags|), k requires 0 <= k < Min(MaxShownFlags, |flags|) => FlagBadge(flags[k]))
  }

  /** `renderFlags(integrity)` */
  function RenderFlags(i: IntegrityRecord): (r: string)
    ensures |FlagsOf(i)| == 0 ==> r == NoFlagsBadge
  {
    var flags := FlagsOf(i);
    if |flags| == 0 then NoFlagsBadge else Join(ShownFlags(flags), " ")
  }

  /** A flagged session shows at most eight badges, the first flags in
      their recorded order, with no raw markup from the flag types. */
  lemma RenderFlagsShowsPrefix(i: IntegrityRecord)
    requires |FlagsOf(i)| > 0
    ensures var shown := ShownFlags(FlagsOf(i));
      && RenderFlags(i) == Join(shown, " ")
      && 1 <= |shown| <= MaxShownFlags
      && (|FlagsOf(i)| <= MaxShownFlags ==> |shown| == |FlagsOf(i)|)
      && (forall k :: 0 <= k < |shown| ==> shown[k] == FlagBadge(FlagsOf(i)[k]))
  {
  }

  /** The text inside a flag badge holds no raw `<`, `>`, `"` or `'`. */
  lemma FlagBadgeEscaped(f: Flag)
    ensures var e := EscapeHtml(f.kind);
      && FlagBadge(f) == "<div class=\"badge warn\">" + e + "</div>"
      && forall k :: 0 <= k < |e| ==> !IsRaw(e[k])
  {
    if f.kind.Some? {
      EscapedIsSafe(f.kind.value);
    }
  }
}
