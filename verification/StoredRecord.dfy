/** The text of a stored record, up to the order of the baseline's entries, and its length. */
module StoredRecord {
  import opened Cargo
  import opened Geometry
  import opened Options

  const LONGEST_TEXT: nat := 32768

  /** How numbers and strings are written: a finite number takes at most 25 characters, and a
      character of a string at most six. */
  datatype Writer = Writer(number: real -> string, text: string -> string) {
    ghost predicate Valid() {
      (forall r :: |number(r)| <= 25) && (forall s :: |text(s)| <= 6 * |s|)
    }
  }

  function KindName(k: Kind): string {
    match k
    case OakLog => "oak_log"
    case BirchLog => "birch_log"
    case SpruceLog => "spruce_log"
    case OakSapling => "oak_sapling"
    case BirchSapling => "birch_sapling"
    case SpruceSapling => "spruce_sapling"
    case Stick => "stick"
    case Apple => "apple"
    case Other => ""
  }

  const KINDS := [OakLog, BirchLog, SpruceLog, OakSapling, BirchSapling, SpruceSapling, Stick, Apple]

  function PointText(w: Writer, p: Point): string {
    "{\"x\":" + w.number(p.x) + ",\"y\":" + w.number(p.y) + ",\"z\":" + w.number(p.z) + "}"
  }

  function PlaceText(w: Writer, p: Option<Point>): string {
    if p.Some? then PointText(w, p.value) else "null"
  }

  function TrailText(w: Writer, trail: seq<Option<Point>>): string {
    if trail == [] then ""
    else TrailText(w, trail[..|trail| - 1]) + (if |trail| > 1 then "," else "") + PlaceText(w, trail[|trail| - 1])
  }

  function BaselineText(w: Writer, baseline: map<Kind, nat>, kinds: seq<Kind>): string {
    if kinds == [] then ""
    else
      var k, before := kinds[|kinds| - 1], BaselineText(w, baseline, kinds[..|kinds| - 1]);
      if k !in baseline then before
      else before + (if before == "" then "" else ",") + "\"" + KindName(k) + "\":" + w.number(baseline[k] as real)
  }

  function Text(w: Writer, s: WoodState): string {
    "{\"version\":1,\"owner\":\"" + s.owner + "\",\"dimension\":\"" + w.text(s.dimension)
    + "\",\"home\":" + PointText(w, s.home) + ",\"chest\":" + PointText(w, s.chest)
    + ",\"pending\":" + (if s.pending then "true" else "false")
    + ",\"baseline\":{" + BaselineText(w, s.baseline, KINDS) + "},\"trail\":[" + TrailText(w, s.trail) + "]}"
  }

  lemma PointTextSize(w: Writer, p: Point)
    requires w.Valid()
    ensures |PointText(w, p)| <= 91
  {
  }

  lemma {:induction false} TrailTextSize(w: Writer, trail: seq<Option<Point>>)
    requires w.Valid()
    ensures |TrailText(w, trail)| <= 92 * |trail|
  {
    hide PointText;
    if trail != [] {
      TrailTextSize(w, trail[..|trail| - 1]);
      if trail[|trail| - 1].Some? {
        PointTextSize(w, trail[|trail| - 1].value);
      }
    }
  }

  lemma {:induction false} BaselineTextSize(w: Writer, baseline: map<Kind, nat>, kinds: seq<Kind>)
    requires w.Valid()
    ensures |BaselineText(w, baseline, kinds)| <= 43 * |kinds|
  {
    if kinds != [] {
      BaselineTextSize(w, baseline, kinds[..|kinds| - 1]);
    }
  }

  /** Main result: no record outgrows the limit that loading sets on its text, if only the
      dimension has a name of at most 4000 characters. */
  lemma RecordFits(w: Writer, s: WoodState)
    requires w.Valid() && WellFormed(s) && |s.dimension| <= 4000
    ensures |Text(w, s)| <= LONGEST_TEXT
  {
    PointTextSize(w, s.home);
    PointTextSize(w, s.chest);
    TrailTextSize(w, s.trail);
    BaselineTextSize(w, s.baseline, KINDS);
    hide PointText, TrailText, BaselineText;
  }
}
