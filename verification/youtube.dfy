/** The pure parts of `src/lib/youtube.ts`: formatting a video duration given
    in the ISO 8601 "format with designators" (`PT1H2M3S`, section 4.4.3.2
    of ISO 8601:2004) as a clock display, extracting the artist from an
    "Artist - Title" title, and joining search results with their detail
    records by position. The two HTTP requests are left out; their responses
    are parameters. */
module YouTube {
  import opened Types
  import opened Text

  // ---------------------------------------------------------------------
  // Durations

  /** The length of the run of decimal digits at the start of `t`. */
  function DigitRun(t: string): (r: nat)
    ensures r <= |t|
    ensures AllDigits(t[..r])
    ensures r == |t| || !IsDigit(t[r])
    decreases |t|
  {
    if |t| == 0 || !IsDigit(t[0]) then 0
    else
      var r := 1 + DigitRun(t[1..]);
      assert t[..r] == [t[0]] + t[1..][..r - 1];
      r
  }

  /** The leading digit run is the whole numeral in front of a non-digit. */
  lemma {:induction false} DigitRunOf(n: nat, e: char, tail: string)
    requires !IsDigit(e)
    ensures DigitRun(DecimalString(n) + [e] + tail) == |DecimalString(n)|
  {
    var d := DecimalString(n);
    var t := d + [e] + tail;
    var r := DigitRun(t);
    assert forall i :: 0 <= i < |d| ==> t[i] == d[i];
    assert t[|d|] == e;
  }

  /** One optional group `(?:(\d+)X)?` of the pattern, for designator X,
      applied at the start of `t`: the digits and the designator when the
      maximal digit run is non-empty and followed by X (a shorter run is
      followed by a digit, so backtracking finds nothing else), and nothing
      otherwise. Returns the group's value and what follows the match. */
  function Component(t: string, designator: char): (r: (Option<nat>, string))
    ensures r.0.Some? <==> 0 < DigitRun(t) < |t| && t[DigitRun(t)] == designator
    ensures r.0.None? ==> r.1 == t
    ensures r.0.Some? ==> exists k :: 0 < k < |t| && AllDigits(t[..k]) && t[k] == designator
                                      && r.0.value == DigitsValue(t[..k]) && r.1 == t[k + 1..]
  {
    var k := DigitRun(t);
    if 0 < k < |t| && t[k] == designator then (Some(DigitsValue(t[..k])), t[k + 1..])
    else (None, t)
  }

  /** The group is the regular expression's: with a designator that is not
      a digit, it matches exactly when some non-empty run of digits at the
      start of the text is followed by the designator. */
  lemma {:induction false} ComponentMatches(t: string, designator: char)
    requires !IsDigit(designator)
    ensures Component(t, designator).0.Some? <==>
              exists k :: 0 < k < |t| && AllDigits(t[..k]) && t[k] == designator
  {
    forall k | 0 < k < |t| && AllDigits(t[..k]) && t[k] == designator
      ensures Component(t, designator).0.Some?
    {
      DigitRunExact(t, k);
    }
  }

  /** A run of digits ended by a non-digit, or by the end of the text, is
      the leading digit run. */
  lemma {:induction false} DigitRunExact(t: string, k: nat)
    requires k <= |t| && AllDigits(t[..k]) && (k == |t| || !IsDigit(t[k]))
    ensures DigitRun(t) == k
  {
    var r := DigitRun(t);
    assert forall i :: 0 <= i < k ==> t[..k][i] == t[i];
    assert forall i :: 0 <= i < r ==> t[..r][i] == t[i];
  }

  /** A numeral followed by the designator is read as that number. */
  lemma {:induction false} ComponentPresent(n: nat, d: char, tail: string)
    requires !IsDigit(d)
    ensures Component(DecimalString(n) + [d] + tail, d) == (Some(n), tail)
  {
    var s := DecimalString(n);
    var t := s + [d] + tail;
    DigitRunOf(n, d, tail);
    assert t[..|s|] == s;
    assert t[|s| + 1..] == tail;
    DecimalRoundTrip(n);
  }

  /** A numeral followed by another designator is not this group. */
  lemma {:induction false} ComponentOther(n: nat, e: char, tail: string, d: char)
    requires !IsDigit(e) && e != d
    ensures Component(DecimalString(n) + [e] + tail, d) == (None, DecimalString(n) + [e] + tail)
  {
    DigitRunOf(n, e, tail);
  }

  /** The hours, minutes and seconds read from a duration, each 0 when its
      group is absent; None when the text contains no "PT" at all. The
      pattern is not anchored: it matches at the first "PT". */
  function DurationFields(iso: string): Option<(nat, nat, nat)> {
    match IndexOf(iso, "PT")
    case None => None
    case Some(i) => Some(FieldsAfter(iso[i + 2..]))
  }

  /** The three optional groups read in turn from the text after "PT". */
  function FieldsAfter(t: string): (nat, nat, nat) {
    var (h, t1) := Component(t, 'H');
    var (m, t2) := Component(t1, 'M');
    var (s, _) := Component(t2, 'S');
    (h.GetOr(0), m.GetOr(0), s.GetOr(0))
  }

  /** The display of hours, minutes and seconds: `h:mm:ss` when there are
      hours, `m:ss` otherwise; the first field is the plain number and every
      field after a colon is padded to two digits. It always reads back as
      the total number of seconds. */
  function Clock(h: nat, m: nat, s: nat): (r: string)
    ensures h > 0 ==> Split(r, ":") == [DecimalString(h), TwoDigits(m), TwoDigits(s)]
    ensures h == 0 ==> Split(r, ":") == [DecimalString(m), TwoDigits(s)]
    ensures ClockSeconds(r) == Some(3600 * h + 60 * m + s)
  {
    if h > 0 then
      var r := DecimalString(h) + ":" + TwoDigits(m) + ":" + TwoDigits(s);
      ClockSeconds3(h, m, s);
      SplitThree(DecimalString(h), TwoDigits(m), TwoDigits(s));
      r
    else
      var r := DecimalString(m) + ":" + TwoDigits(s);
      ClockSeconds2(m, s);
      SplitAfterDigits(DecimalString(m), TwoDigits(s));
      SplitDigits(TwoDigits(s));
      r
  }

  /** `formatDuration(iso)`: "0:00" without a "PT"; otherwise the clock
      display of the fields read, which denotes exactly their total in
      seconds. */
  function FormatDuration(iso: string): (r: string)
    ensures DurationFields(iso).None? ==> r == "0:00"
    ensures DurationFields(iso).Some? ==>
              var f := DurationFields(iso).value;
              && ClockSeconds(r) == Some(3600 * f.0 + 60 * f.1 + f.2)
              && (f.0 > 0 ==> Split(r, ":") == [DecimalString(f.0), TwoDigits(f.1), TwoDigits(f.2)])
              && (f.0 == 0 ==> Split(r, ":") == [DecimalString(f.1), TwoDigits(f.2)])
  {
    var f := DurationFields(iso);
    if f.None? then "0:00" else Clock(f.value.0, f.value.1, f.value.2)
  }

  /** One `<n>X` group of a duration, or nothing. */
  function Group(n: Option<nat>, designator: char): string {
    match n
    case None => ""
    case Some(v) => DecimalString(v) + [designator]
  }

  /** The duration text `PT[<h>H][<m>M][<s>S]`. */
  function Designators(h: Option<nat>, m: Option<nat>, s: Option<nat>): string {
    "PT" + Group(h, 'H') + Group(m, 'M') + Group(s, 'S')
  }

  lemma {:induction false} GroupRead(n: Option<nat>, d: char, rest: string)
    requires !IsDigit(d)
    requires Component(rest, d) == (None, rest)
    ensures Component(Group(n, d) + rest, d) == (n, rest)
  {
    if n.Some? {
      ComponentPresent(n.value, d, rest);
    } else {
      assert Group(n, d) + rest == rest;
    }
  }

  lemma {:induction false} GroupSkipped(n: Option<nat>, e: char, rest: string, d: char)
    requires !IsDigit(e) && e != d
    requires Component(rest, d) == (None, rest)
    ensures Component(Group(n, e) + rest, d) == (None, Group(n, e) + rest)
  {
    if n.Some? {
      ComponentOther(n.value, e, rest, d);
    } else {
      assert Group(n, e) + rest == rest;
    }
  }

  /** Text that starts with "PT" is read from just after it. */
  lemma {:induction false} FieldsAfterPT(rest: string)
    ensures DurationFields("PT" + rest) == Some(FieldsAfter(rest))
  {
    var iso := "PT" + rest;
    assert OccursAt(iso, "PT", 0) by { assert iso[..2] == "PT"; }
    assert iso[2..] == rest;
  }

  lemma {:induction false} FieldsOfGroups(h: Option<nat>, m: Option<nat>, s: Option<nat>)
    ensures FieldsAfter(Group(h, 'H') + Group(m, 'M') + Group(s, 'S')) == (h.GetOr(0), m.GetOr(0), s.GetOr(0))
  {
    var gs := Group(s, 'S');
    var gm := Group(m, 'M') + gs;
    assert Group(h, 'H') + Group(m, 'M') + gs == Group(h, 'H') + gm;
    assert Component("", 'S') == (None, "");
    assert Component("", 'M') == (None, "");
    assert Component("", 'H') == (None, "");
    GroupSkipped(s, 'S', "", 'M');
    GroupSkipped(s, 'S', "", 'H');
    assert gs + "" == gs;
    GroupSkipped(m, 'M', gs, 'H');
    GroupRead(h, 'H', gm);
    GroupRead(m, 'M', gs);
    GroupRead(s, 'S', "");
  }

  /** Every well-formed designator text is read back field by field, absent
      groups as 0. */
  lemma {:induction false} ReadDesignators(h: Option<nat>, m: Option<nat>, s: Option<nat>)
    ensures DurationFields(Designators(h, m, s)) == Some((h.GetOr(0), m.GetOr(0), s.GetOr(0)))
  {
    var rest := Group(h, 'H') + Group(m, 'M') + Group(s, 'S');
    assert Designators(h, m, s) == "PT" + rest;
    FieldsAfterPT(rest);
    FieldsOfGroups(h, m, s);
  }

  /** The clock display of a designator text denotes the duration's total
      number of seconds; hours appear as a separate group only when
      non-zero. */
  lemma {:induction false} FormatDesignators(h: nat, m: nat, s: nat)
    ensures ClockSeconds(FormatDuration(Designators(Some(h), Some(m), Some(s)))) == Some(3600 * h + 60 * m + s)
    ensures FormatDuration(Designators(Some(h), Some(m), Some(s))) == Clock(h, m, s)
  {
    ReadDesignators(Some(h), Some(m), Some(s));
  }

  lemma {:induction false} ClockZero()
    ensures Clock(0, 0, 0) == "0:00"
  {
    assert DecimalString(0) == "0";
    assert TwoDigits(0) == "00";
  }

  /** Absent groups count as zero: "PT" and "PT0M0S" both display as "0:00". */
  lemma {:induction false} ZeroDurations()
    ensures FormatDuration("PT") == "0:00"
    ensures FormatDuration("PT0M0S") == "0:00"
  {
    EmptyDuration();
    ZeroGroups();
  }

  lemma {:induction false} EmptyDuration()
    ensures FormatDuration("PT") == "0:00"
  {
    ClockZero();
    assert Designators(None, None, None) == "PT";
    ReadDesignators(None, None, None);
  }

  lemma {:induction false} ZeroGroups()
    ensures FormatDuration("PT0M0S") == "0:00"
  {
    ClockZero();
    assert DecimalString(0) == "0";
    var iso := Designators(None, Some(0), Some(0));
    assert iso == "PT0M0S";
    ReadDesignators(None, Some(0), Some(0));
    assert DurationFields(iso) == Some((0, 0, 0));
  }

  /** Fields are not normalised: 90 minutes stay "90:00". */
  lemma {:induction false} NinetyMinutes()
    ensures FormatDuration("PT90M") == "90:00"
  {
    NinetyText();
    ReadDesignators(None, Some(90), None);
    ClockNinety();
  }

  lemma {:induction false} NinetyText()
    ensures Designators(None, Some(90), None) == "PT90M"
  {
    assert DecimalString(9) == "9";
    assert DecimalString(90) == "90";
  }

  lemma {:induction false} ClockNinety()
    ensures Clock(0, 90, 0) == "90:00"
  {
    assert DecimalString(9) == "9";
    assert DecimalString(90) == "90";
    assert TwoDigits(0) == "00";
  }

  /** A duration with a day part has no "PT" (the "T" follows the day
      count), so it displays as "0:00". */
  lemma {:induction false} DaysDisplayAsZero()
    ensures FormatDuration("P1DT2H") == "0:00"
  {
    var iso := "P1DT2H";
    forall j | 0 <= j ensures !OccursAt(iso, "PT", j) {
      if j + 2 <= |iso| {
        assert iso[j..j + 2] == [iso[j], iso[j + 1]];
      }
    }
    assert IndexOf(iso, "PT").None?;
  }

  // ---------------------------------------------------------------------
  // Search results

  /** `title.split(' - ')` has more than one piece: the trimmed first piece
      is the artist; otherwise the channel title is. */
  function Artist(title: string, channelTitle: string): (r: string)
    ensures !Contains(title, " - ") ==> r == channelTitle
    ensures Contains(title, " - ") ==> r == Trim(title[..IndexOf(title, " - ").value])
  {
    SplitFirstPiece(title, " - ");
    var parts := Split(title, " - ");
    if |parts| > 1 then Trim(parts[0]) else channelTitle
  }

  /** A title written "Artist - Title", with no dash in the artist part,
      yields the artist part, trimmed. */
  lemma {:induction false} ArtistOfDashedTitle(a: string, rest: string, channelTitle: string)
    requires forall i :: 0 <= i < |a| ==> a[i] != '-'
    ensures Artist(a + " - " + rest, channelTitle) == Trim(a)
  {
    var t := a + " - " + rest;
    assert OccursAt(t, " - ", |a|) by { assert t[|a|..|a| + 3] == " - "; }
    forall j | 0 <= j < |a| ensures !OccursAt(t, " - ", j) {
      assert t[j + 1] != '-';
    }
    assert IndexOf(t, " - ").value == |a|;
    assert t[..|a|] == a;
  }

  /** One item of the search response. */
  datatype SearchItem = SearchItem(videoId: string, title: string, channelTitle: string, thumbnail: string)

  /** One item of the details response; either part may be missing. */
  datatype Details = Details(duration: Option<string>, viewCount: Option<int>)

  /** The duration text used for a result: the detail at the same position,
      or "PT0M0S" when that detail, its duration, or its text is missing or
      empty. */
  function DurationText(details: seq<Details>, i: nat): (r: string)
    ensures i >= |details| ==> r == "PT0M0S"
    ensures i < |details| && details[i].duration.Some? && details[i].duration.value != "" ==>
              r == details[i].duration.value
    ensures i < |details| && (details[i].duration.None? || details[i].duration.value == "") ==>
              r == "PT0M0S"
  {
    if i < |details| && details[i].duration.Some? && details[i].duration.value != "" then
      details[i].duration.value
    else
      "PT0M0S"
  }

  /** The view count used for a result: the detail's count, 0 when absent. */
  function ViewCount(details: seq<Details>, i: nat): (r: int)
    ensures i < |details| && details[i].viewCount.Some? ==> r == details[i].viewCount.value
    ensures i >= |details| || details[i].viewCount.None? ==> r == 0
  {
    if i < |details| && details[i].viewCount.Some? then details[i].viewCount.value else 0
  }

  /** The song built from the search item at position `i`. */
  function ToSong(item: SearchItem, details: seq<Details>, i: nat): Song {
    Song(item.videoId, item.title, Artist(item.title, item.channelTitle), item.thumbnail,
         FormatDuration(DurationText(details, i)), Some(ViewCount(details, i)))
  }

  /** The mapping at the end of `searchSongs`: one song per search item, in
      order, each joined with the detail record at the same position. */
  function SearchResults(items: seq<SearchItem>, details: seq<Details>): (r: seq<Song>)
    ensures |r| == |items|
    ensures forall i :: 0 <= i < |items| ==>
              && r[i].videoId == items[i].videoId
              && r[i].title == items[i].title
              && r[i].thumbnail == items[i].thumbnail
              && r[i] == ToSong(items[i], details, i)
  {
    seq(|items|, i requires 0 <= i < |items| => ToSong(items[i], details, i))
  }

  /** A result without a detail record at its position shows "0:00" and no
      views. */
  lemma {:induction false} MissingDetails(items: seq<SearchItem>, details: seq<Details>, i: nat)
    requires |details| <= i < |items|
    ensures SearchResults(items, details)[i].duration == "0:00"
    ensures SearchResults(items, details)[i].viewCount == Some(0)
  {
    ZeroDurations();
  }
}
