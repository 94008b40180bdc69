/**
 * The integer and sequence logic of the Brawl Stars embed builders: the two
 * duration renderings, the trophy-rank lookup, the paging of brawlers,
 * leaderboards and top lists, the club's top-three lists and the club stats
 * line block. Game data arrives as plain records; e() is Utils.EmojiFor over
 * an emoji table passed in.
 */
module Brawlstars {
  import opened Wrappers
  import opened Text
  import opened Arith
  import opened Embeds
  import Utils

  /** The footer the bot puts on its game pages. */
  const PoweredBy := "Statsy | Powered by brawlapi.cf"

  /** The ideographic space (U+3000) the brawler fields use as a separator. */
  const WideSpace := "\U{3000}"

  function Emoji(name: string, table: Utils.EmojiTable): string
  {
    Utils.EmojiFor(Utils.StrName(name), true, table)
  }

  function Max0(x: int): int { if x > 0 then x else 0 }

  // ---------------------------------------------------------------------
  // Durations

  datatype Duration = Duration(days: int, hours: int, minutes: int, seconds: int)

  /** The split format_timestamp makes, stated without its step-by-step updates: 60 at every level, so a "day" is 60 hours. */
  function SixtySplit(seconds: int): Duration
  {
    if seconds < 0 then Duration(0, 0, 0, seconds)
    else Duration(seconds / 216000, (seconds / 3600) % 60, (seconds / 60) % 60, seconds % 60)
  }

  /** The text format_timestamp builds from a split: each non-zero part in turn, the later ones after a space. */
  function TimeLeft(d: Duration): string
  {
    Part(d.days, "", "d") + Part(d.hours, " ", "h") + Part(d.minutes, " ", "m") + Part(d.seconds, " ", "s")
  }

  /** One part of format_timestamp's text: the value and its unit, after lead, when the value is positive. */
  function Part(v: int, lead: string, unit: string): string
  {
    if v > 0 then lead + IntStr(v) + unit else ""
  }

  lemma PartAppend(t: string, v: int, lead: string, unit: string)
    ensures (if v > 0 then t + lead + IntStr(v) + unit else t) == t + Part(v, lead, unit)
  {
  }

  /** `format_timestamp(seconds)`, as written. */
  method FormatTimestamp(seconds: int) returns (timeleft: string)
    ensures timeleft == TimeLeft(SixtySplit(seconds))
  {
    var s := seconds;
    var minutes := Max0(s / 60);
    s := s - minutes * 60;
    var hours := Max0(minutes / 60);
    minutes := minutes - hours * 60;
    var days := Max0(hours / 60);
    hours := hours - days * 60;
    SixtySteps(seconds);
    assert SixtySplit(seconds) == Duration(days, hours, minutes, s);
    timeleft := "";
    PartAppend(timeleft, days, "", "d");
    if days > 0 {
      timeleft := timeleft + IntStr(days) + "d";
    }
    PartAppend(timeleft, hours, " ", "h");
    if hours > 0 {
      timeleft := timeleft + " " + IntStr(hours) + "h";
    }
    PartAppend(timeleft, minutes, " ", "m");
    if minutes > 0 {
      timeleft := timeleft + " " + IntStr(minutes) + "m";
    }
    PartAppend(timeleft, s, " ", "s");
    if s > 0 {
      timeleft := timeleft + " " + IntStr(s) + "s";
    }
  }

  /** The step-by-step updates of format_timestamp compute SixtySplit. */
  lemma SixtySteps(seconds: int)
    ensures var m0 := Max0(seconds / 60);
      var h0 := Max0(m0 / 60);
      var d := Max0(h0 / 60);
      SixtySplit(seconds) == Duration(d, h0 - d * 60, m0 - h0 * 60, seconds - m0 * 60)
  {
    if seconds >= 0 {
      DivDiv(seconds, 60, 60);
      DivDiv(seconds, 3600, 60);
    }
  }

  /** The split puts the seconds back together, its hours, minutes and seconds stay below 60, and no part is negative. */
  lemma SixtySplitDecomposes(seconds: int)
    requires seconds >= 0
    ensures var d := SixtySplit(seconds);
      && seconds == ((d.days * 60 + d.hours) * 60 + d.minutes) * 60 + d.seconds
      && 0 <= d.hours < 60 && 0 <= d.minutes < 60 && 0 <= d.seconds < 60 && d.days >= 0
  {
    DivDiv(seconds, 60, 60);
    DivDiv(seconds, 3600, 60);
    var m := seconds / 60;
    assert seconds == m * 60 + seconds % 60;
    var h := m / 60;
    assert m == h * 60 + m % 60;
    assert h == (h / 60) * 60 + h % 60;
  }

  /** Nothing is printed for zero or negative input. */
  lemma NonPositiveTimestampIsEmpty(seconds: int)
    requires seconds <= 0
    ensures TimeLeft(SixtySplit(seconds)) == ""
  {
  }

  /** As written, one day (86400 seconds) prints as 24 hours, with a leading space. */
  lemma OneDayAsWritten()
    ensures TimeLeft(SixtySplit(86400)) == " 24h"
  {
    assert SixtySplit(86400) == Duration(0, 24, 0, 0);
    assert NatStr(24) == "24";
  }

  /** The split with 24 hours to the day. */
  function DaySplit(seconds: int): Duration
  {
    if seconds < 0 then Duration(0, 0, 0, seconds)
    else Duration(seconds / 86400, (seconds / 3600) % 24, (seconds / 60) % 60, seconds % 60)
  }

  /** format_timestamp with days counted as 24 hours. */
  function FormatTimestampInDays(seconds: int): string
  {
    TimeLeft(DaySplit(seconds))
  }

  /** DaySplit reassembles the seconds with hours below 24 and minutes and seconds below 60. */
  lemma DaySplitDecomposes(seconds: int)
    requires seconds >= 0
    ensures var d := DaySplit(seconds);
      && seconds == ((d.days * 24 + d.hours) * 60 + d.minutes) * 60 + d.seconds
      && 0 <= d.hours < 24 && 0 <= d.minutes < 60 && 0 <= d.seconds < 60 && d.days >= 0
  {
    DivDiv(seconds, 60, 60);
    DivDiv(seconds, 3600, 24);
    var m := seconds / 60;
    assert seconds == m * 60 + seconds % 60;
    var h := m / 60;
    assert m == h * 60 + m % 60;
    assert h == (h / 24) * 24 + h % 24;
  }

  lemma OneDayInDays()
    ensures FormatTimestampInDays(86400) == "1d"
  {
    assert DaySplit(86400) == Duration(1, 0, 0, 0);
  }

  /** The divmod chain of the "last updated" text (Python's divmod floors, as Dafny's division does for a positive divisor). */
  function ElapsedSplit(elapsed: int): Duration
  {
    Duration(elapsed / 86400, (elapsed / 3600) % 24, (elapsed % 3600) / 60, elapsed % 60)
  }

  /** The "last updated" text: "{s}s", preceded by "{m}m ", "{h}h " and "{d}d " for the non-zero parts. */
  function ElapsedText(d: Duration): (r: string)
    ensures |r| >= 2 && r[|r| - 1] == 's'
    ensures d.days == 0 && d.hours == 0 && d.minutes == 0 ==> r == IntStr(d.seconds) + "s"
  {
    IntStrDigits(d.seconds);
    var tail := IntStr(d.seconds) + "s";
    PartsShape(UnitPart(d.days, "d "), UnitPart(d.hours, "h "), UnitPart(d.minutes, "m "), tail);
    UnitPart(d.days, "d ") + (UnitPart(d.hours, "h ") + (UnitPart(d.minutes, "m ") + tail))
  }

  /** The text ends in "{s}s" and starts with the part of the largest non-zero unit. */
  lemma ElapsedTextParts(d: Duration)
    ensures var r := ElapsedText(d); var tail := IntStr(d.seconds) + "s";
      |r| >= |tail| && r[|r| - |tail|..] == tail
    ensures d.days != 0 ==> var head := IntStr(d.days) + "d "; |ElapsedText(d)| >= |head| && ElapsedText(d)[..|head|] == head
    ensures d.days == 0 && d.hours != 0 ==>
      var head := IntStr(d.hours) + "h "; |ElapsedText(d)| >= |head| && ElapsedText(d)[..|head|] == head
    ensures d.days == 0 && d.hours == 0 && d.minutes != 0 ==>
      var head := IntStr(d.minutes) + "m "; |ElapsedText(d)| >= |head| && ElapsedText(d)[..|head|] == head
  {
    UnitPartsShape(d.days, d.hours, d.minutes, IntStr(d.seconds) + "s");
  }

  lemma UnitPartsShape(days: int, hours: int, minutes: int, tail: string)
    ensures var r := UnitPart(days, "d ") + (UnitPart(hours, "h ") + (UnitPart(minutes, "m ") + tail));
      && |r| >= |tail| && r[|r| - |tail|..] == tail
      && (days != 0 ==> var head := IntStr(days) + "d "; |r| >= |head| && r[..|head|] == head)
      && (days == 0 && hours != 0 ==> var head := IntStr(hours) + "h "; |r| >= |head| && r[..|head|] == head)
      && (days == 0 && hours == 0 && minutes != 0 ==>
            var head := IntStr(minutes) + "m "; |r| >= |head| && r[..|head|] == head)
  {
    PartsShape(UnitPart(days, "d "), UnitPart(hours, "h "), UnitPart(minutes, "m "), tail);
  }

  /** "{v}{unit}" when v is non-zero, else nothing. */
  function UnitPart(v: int, unit: string): (r: string)
    ensures v == 0 ==> r == ""
  {
    if v != 0 then IntStr(v) + unit else ""
  }

  /** a + (b + (c + tail)) ends in tail and starts with its first non-empty part. */
  lemma PartsShape(a: string, b: string, c: string, tail: string)
    ensures var r := a + (b + (c + tail));
      && |r| >= |tail| && r[|r| - |tail|..] == tail
      && (|tail| >= 1 ==> r[|r| - 1] == tail[|tail| - 1])
      && r[..|a|] == a
      && (a == "" ==> r[..|b|] == b)
      && (a == "" && b == "" ==> r[..|c|] == c)
      && (a == "" && b == "" && c == "" ==> r == tail)
  {
    var r := a + (b + (c + tail));
    assert r == (a + b + c) + tail;
    assert r[|r| - |tail|..] == tail;
  }

  /** The `fmt` builder of format_robo and format_boss, over the elapsed whole seconds. */
  method LastUpdated(elapsed: int) returns (fmt: string)
    ensures fmt == ElapsedText(ElapsedSplit(elapsed))
  {
    var hours, remainder := elapsed / 3600, elapsed % 3600;
    var minutes, seconds := remainder / 60, remainder % 60;
    var days := hours / 24;
    hours := hours % 24;
    ElapsedSteps(elapsed);
    fmt := IntStr(seconds) + "s";
    if minutes != 0 {
      fmt := IntStr(minutes) + "m " + fmt;
    }
    assert fmt == UnitPart(minutes, "m ") + (IntStr(seconds) + "s");
    if hours != 0 {
      fmt := IntStr(hours) + "h " + fmt;
    }
    assert fmt == UnitPart(hours, "h ") + (UnitPart(minutes, "m ") + (IntStr(seconds) + "s"));
    if days != 0 {
      fmt := IntStr(days) + "d " + fmt;
    }
  }

  /** The divmod chain computes ElapsedSplit. */
  lemma ElapsedSteps(elapsed: int)
    ensures ElapsedSplit(elapsed)
      == Duration((elapsed / 3600) / 24, (elapsed / 3600) % 24, (elapsed % 3600) / 60, (elapsed % 3600) % 60)
  {
    DivDiv(elapsed, 3600, 24);
    var rem := elapsed % 3600;
    assert elapsed == (elapsed / 3600) * 3600 + rem;
    assert rem == (rem / 60) * 60 + rem % 60;
    assert elapsed == ((elapsed / 3600) * 60 + rem / 60) * 60 + rem % 60;
    DivModUnique(elapsed, 60, (elapsed / 3600) * 60 + rem / 60, rem % 60);
  }

  /** The split reassembles the elapsed time, for every input including a negative one (a clock behind the update time). */
  lemma ElapsedSplitDecomposes(elapsed: int)
    ensures var d := ElapsedSplit(elapsed);
      && elapsed == ((d.days * 24 + d.hours) * 60 + d.minutes) * 60 + d.seconds
      && 0 <= d.hours < 24 && 0 <= d.minutes < 60 && 0 <= d.seconds < 60
  {
    DivDiv(elapsed, 3600, 24);
    var h := elapsed / 3600;
    var rem := elapsed % 3600;
    assert elapsed == h * 3600 + rem;
    assert h == (h / 24) * 24 + h % 24;
    assert rem == (rem / 60) * 60 + rem % 60;
    assert elapsed == ((h * 60) + rem / 60) * 60 + rem % 60;
    DivModUnique(elapsed, 60, h * 60 + rem / 60, rem % 60);
  }

  lemma OneDayElapsed()
    ensures ElapsedText(ElapsedSplit(86400)) == "1d 0s"
  {
    assert ElapsedSplit(86400) == Duration(1, 0, 0, 0);
    assert IntStr(1) == "1" && IntStr(0) == "0";
  }

  // ---------------------------------------------------------------------
  // Trophy ranks

  /** The trophy thresholds of ranks 1 to 20. */
  const Ranks: seq<int> := [0, 10, 20, 30, 40, 60, 80, 100, 120, 140, 160, 180, 220, 260, 300, 340, 380, 420, 460, 500]

  predicate Increasing(s: seq<int>)
  {
    forall i :: 0 < i < |s| ==> s[i - 1] < s[i]
  }

  /** `[r for r in s if trophies >= r]`. */
  function Reached(s: seq<int>, trophies: int): (r: seq<int>)
    ensures forall x :: x in r <==> x in s && trophies >= x
  {
    if s == [] then [] else (if trophies >= s[0] then [s[0]] else []) + Reached(s[1..], trophies)
  }

  /** The number of thresholds reached. */
  function CountReached(s: seq<int>, trophies: int): nat
  {
    if s == [] || trophies < s[0] then 0 else 1 + CountReached(s[1..], trophies)
  }

  /** `s.index(x)`: the first position of x, or None (ValueError) when absent. */
  function IndexOf(s: seq<int>, x: int): (r: Option<nat>)
    ensures r.Some? ==> r.value < |s| && s[r.value] == x && forall j :: 0 <= j < r.value ==> s[j] != x
    ensures r.None? ==> x !in s
  {
    if s == [] then None
    else if s[0] == x then Some(0)
    else match IndexOf(s[1..], x)
      case None => None
      case Some(k) => Some(k + 1)
  }

  /** In an increasing list the reached thresholds are a prefix: those before the first one above the trophies. */
  lemma {:induction false} ReachedIsPrefix(s: seq<int>, trophies: int)
    requires Increasing(s)
    ensures CountReached(s, trophies) <= |s|
    ensures Reached(s, trophies) == s[..CountReached(s, trophies)]
    ensures forall i :: 0 <= i < CountReached(s, trophies) ==> s[i] <= trophies
    ensures forall i :: CountReached(s, trophies) <= i < |s| ==> trophies < s[i]
    decreases |s|
  {
    if s != [] {
      ReachedIsPrefix(s[1..], trophies);
      if trophies < s[0] {
        NoneReached(s, trophies);
      } else {
        assert s[..CountReached(s, trophies)] == [s[0]] + s[1..][..CountReached(s[1..], trophies)];
      }
    }
  }

  lemma {:induction false} NoneReached(s: seq<int>, trophies: int)
    requires Increasing(s) && |s| >= 1 && trophies < s[0]
    ensures Reached(s, trophies) == []
    ensures forall i :: 0 <= i < |s| ==> trophies < s[i]
    decreases |s|
  {
    if |s| >= 2 {
      NoneReached(s[1..], trophies);
    }
  }

  lemma {:induction false} IndexOfIncreasing(s: seq<int>, k: nat)
    requires Increasing(s) && k < |s|
    ensures IndexOf(s, s[k]) == Some(k)
    decreases |s|
  {
    if k > 0 {
      assert s[0] < s[k] by {
        NoneReached(s[1..], s[0]);
      }
      IndexOfIncreasing(s[1..], k - 1);
    }
  }

  /**
   * The rank expression of format_brawlers over a threshold list s: the
   * position, counted from 1, of the last threshold the trophies reach; None
   * (IndexError on the empty list) when they reach none.
   */
  function RankIn(s: seq<int>, trophies: int): Option<nat>
  {
    var reached := Reached(s, trophies);
    if reached == [] then None
    else match IndexOf(s, reached[|reached| - 1])
      case None => None
      case Some(k) => Some(k + 1)
  }

  /** In an increasing list the rank is the number of thresholds reached, and there is none below the first threshold. */
  lemma RankInIsCount(s: seq<int>, trophies: int)
    requires Increasing(s)
    ensures RankIn(s, trophies) == (if CountReached(s, trophies) == 0 then None else Some(CountReached(s, trophies)))
  {
    ReachedIsPrefix(s, trophies);
    var c := CountReached(s, trophies);
    if c > 0 {
      assert Reached(s, trophies)[c - 1] == s[c - 1];
      IndexOfIncreasing(s, c - 1);
    }
  }

  lemma RanksIncreasing()
    ensures Increasing(Ranks) && |Ranks| == 20 && Ranks[0] == 0
  {
  }

  /** The rank of format_brawlers, over the twenty thresholds. */
  function RankOf(trophies: int): (r: Option<nat>)
    ensures r.None? <==> trophies < 0
  {
    RanksIncreasing();
    RankInIsCount(Ranks, trophies);
    RankIn(Ranks, trophies)
  }

  /** For trophies >= 0 the rank is between 1 and 20 and names the largest threshold not above the trophies. */
  lemma RankIsLargestThreshold(trophies: int)
    requires trophies >= 0
    ensures var r := RankOf(trophies);
      && r.Some? && 1 <= r.value <= |Ranks|
      && Ranks[r.value - 1] <= trophies
      && (r.value < |Ranks| ==> trophies < Ranks[r.value])
  {
    RanksIncreasing();
    ReachedIsPrefix(Ranks, trophies);
    RankInIsCount(Ranks, trophies);
  }

  lemma RankIsCount(trophies: int)
    requires trophies >= 0
    ensures RankOf(trophies) == Some(CountReached(Ranks, trophies))
  {
    RanksIncreasing();
    ReachedIsPrefix(Ranks, trophies);
    RankInIsCount(Ranks, trophies);
  }

  lemma {:induction false} CountMonotone(s: seq<int>, t1: int, t2: int)
    requires t1 <= t2
    ensures CountReached(s, t1) <= CountReached(s, t2)
    decreases |s|
  {
    if s != [] && t1 >= s[0] {
      CountMonotone(s[1..], t1, t2);
    }
  }

  /** More trophies never mean a lower rank. */
  lemma RankMonotone(t1: int, t2: int)
    requires 0 <= t1 <= t2
    ensures RankOf(t1).value <= RankOf(t2).value
  {
    RankIsCount(t1);
    RankIsCount(t2);
    CountMonotone(Ranks, t1, t2);
  }

  // ---------------------------------------------------------------------
  // Brawler pages

  datatype Brawler = Brawler(name: string, level: int, trophies: int, highestTrophies: int, hasSkin: bool)

  datatype Profile = Profile(name: string, tag: string, brawlers: seq<Brawler>)

  function ProfileHeader(p: Profile): (h: Embed)
    ensures h.fields == []
  {
    Embed("", p.name + " (#" + p.tag + ")", "", [], Footer(PoweredBy, ""))
  }

  /** The field of one brawler: its emoji and name (Franky shown as Frank), then level, skin and trophies with the rank. */
  function BrawlerField(b: Brawler, table: Utils.EmojiTable): Field
    requires b.highestTrophies >= 0
  {
    var rank := RankOf(b.highestTrophies).value;
    var skin := if b.hasSkin then Emoji("tick", table) else Emoji("xmark", table);
    Field(
      Utils.EmojiFor(Utils.StrName(b.name), true, table) + WideSpace + Replace(b.name, "Franky", "Frank"),
      Emoji("xp", table) + WideSpace + "Level " + IntStr(b.level) + "\n"
      + skin + WideSpace + "Skin Active?\n"
      + Emoji("bstrophy", table) + WideSpace + IntStr(b.trophies) + "/" + IntStr(b.highestTrophies)
      + " PB (Rank " + NatStr(rank) + ")")
  }

  predicate AllRanked(bs: seq<Brawler>)
  {
    forall k :: 0 <= k < |bs| ==> bs[k].highestTrophies >= 0
  }

  function BrawlerFields(bs: seq<Brawler>, table: Utils.EmojiTable): (r: seq<Field>)
    requires AllRanked(bs)
    ensures |r| == |bs|
    ensures forall k :: 0 <= k < |bs| ==> r[k] == BrawlerField(bs[k], table)
  {
    seq(|bs|, k requires 0 <= k < |bs| && bs[k].highestTrophies >= 0 => BrawlerField(bs[k], table))
  }

  /**
   * `format_brawlers`: a new page at every index divisible by 6, each
   * brawler's field on the last page; a brawler whose highest trophies reach
   * no rank raises, and no pages come back.
   */
  method FormatBrawlers(p: Profile, table: Utils.EmojiTable) returns (r: Option<seq<Embed>>)
    ensures r.None? <==> !AllRanked(p.brawlers)
    ensures r.Some? ==> r.value == PagesOf(ProfileHeader(p), Chunks(BrawlerFields(p.brawlers, table), 6))
  {
    var header := ProfileHeader(p);
    var ems: seq<Embed> := [];
    for n := 0 to |p.brawlers|
      invariant AllRanked(p.brawlers[..n])
      invariant ems == PagesOf(header, Chunks(BrawlerFields(p.brawlers[..n], table), 6))
    {
      var b := p.brawlers[n];
      var rank := RankOf(b.highestTrophies);
      if rank.None? {
        return None;
      }
      var f := BrawlerField(b, table);
      BrawlerStep(p, table, n, ems);
      if n % 6 == 0 {
        ems := ems + [header];
      }
      ems := ems[..|ems| - 1] + [AddField(ems[|ems| - 1], f)];
    }
    assert p.brawlers[..|p.brawlers|] == p.brawlers;
    return Some(ems);
  }

  /** One turn of format_brawlers' loop keeps the pages equal to the paged fields of the brawlers so far. */
  lemma BrawlerStep(p: Profile, table: Utils.EmojiTable, n: nat, ems: seq<Embed>)
    requires n < |p.brawlers| && AllRanked(p.brawlers[..n]) && p.brawlers[n].highestTrophies >= 0
    requires ems == PagesOf(ProfileHeader(p), Chunks(BrawlerFields(p.brawlers[..n], table), 6))
    ensures AllRanked(p.brawlers[..n + 1])
    ensures var grown := if n % 6 == 0 then ems + [ProfileHeader(p)] else ems;
      && |grown| >= 1
      && grown[..|grown| - 1] + [AddField(grown[|grown| - 1], BrawlerField(p.brawlers[n], table))]
         == PagesOf(ProfileHeader(p), Chunks(BrawlerFields(p.brawlers[..n + 1], table), 6))
  {
    var done := BrawlerFields(p.brawlers[..n], table);
    BrawlerFieldsSnoc(p.brawlers, n, table);
    PagesStep(ProfileHeader(p), done, BrawlerField(p.brawlers[n], table), 6, n, ems);
  }

  lemma BrawlerFieldsSnoc(bs: seq<Brawler>, n: nat, table: Utils.EmojiTable)
    requires n < |bs| && AllRanked(bs[..n]) && bs[n].highestTrophies >= 0
    ensures AllRanked(bs[..n + 1])
    ensures |BrawlerFields(bs[..n], table)| == n
    ensures BrawlerFields(bs[..n + 1], table) == BrawlerFields(bs[..n], table) + [BrawlerField(bs[n], table)]
  {
    assert bs[..n + 1] == bs[..n] + [bs[n]];
  }

  /** Brawler k is shown on page k / 6, at position k % 6, and there are ceil(n / 6) pages. */
  lemma BrawlerPlacement(p: Profile, table: Utils.EmojiTable, k: nat)
    requires AllRanked(p.brawlers) && k < |p.brawlers|
    ensures var pages := PagesOf(ProfileHeader(p), Chunks(BrawlerFields(p.brawlers, table), 6));
      && |pages| == CeilDiv(|p.brawlers|, 6)
      && k / 6 < |pages| && k % 6 < |pages[k / 6].fields|
      && pages[k / 6].fields[k % 6] == BrawlerField(p.brawlers[k], table)
  {
    PagedFieldPlacement(ProfileHeader(p), BrawlerFields(p.brawlers, table), 6, k);
  }

  // ---------------------------------------------------------------------
  // Top players and top clubs

  /**
   * The paging loop of format_top_players and format_top_clubs: a page is
   * closed when 12 more fields have been added, and the page in progress is
   * always appended at the end.
   */
  method TwelvePerPage(header: Embed, fields: seq<Field>) returns (embeds: seq<Embed>)
    requires header.fields == []
    ensures |fields| == 0 ==> embeds == [header]
    ensures |fields| >= 1 ==> embeds == PagesOf(header, Chunks(fields, 12))
  {
    embeds := [];
    var em := header;
    for counter := 0 to |fields|
      invariant counter == 0 ==> embeds == [] && em == header
      invariant counter > 0 ==> embeds + [em] == PagesOf(header, Chunks(fields[..counter], 12))
    {
      var f := fields[counter];
      assert fields[..counter + 1] == fields[..counter] + [f];
      ChunksSnoc(fields[..counter], f, 12);
      PagesGrow(header, Chunks(fields[..counter], 12), f);
      if counter % 12 == 0 && counter != 0 {
        embeds := embeds + [em];
        em := header;
      }
      if counter == 0 {
        assert fields[..1] == [f];
      }
      em := AddField(em, f);
    }
    assert fields[..|fields|] == fields;
    embeds := embeds + [em];
  }

  /** The description of the leaderboard pages: the PSA message in italics when one is set. */
  function TopDescription(psa: Option<string>, what: string): string
  {
    if psa.Some? && psa.value != "" then "*" + psa.value + "*" else "Top 200 global " + what + " right now."
  }

  datatype TopPlayer = TopPlayer(name: string, tag: string, trophies: int, position: int, expLevel: int, clubName: Option<string>)

  datatype TopClub = TopClub(name: string, tag: string, trophies: int, position: int, membersCount: int)

  function PlayerField(c: TopPlayer, table: Utils.EmojiTable): Field
  {
    Field(c.name,
      "#" + c.tag
      + "\n" + Emoji("bstrophy", table) + IntStr(c.trophies)
      + "\n" + Emoji("bountystar", table) + " Rank: " + IntStr(c.position) + " "
      + "\n" + Emoji("xp", table) + " XP Level: " + IntStr(c.expLevel)
      + "\n" + Emoji("gameroom", table) + " " + c.clubName.GetOr("No Clan"))
  }

  function ClubField(c: TopClub, table: Utils.EmojiTable): Field
  {
    Field(c.name,
      "#" + c.tag
      + "\n" + Emoji("bstrophy", table) + IntStr(c.trophies)
      + "\n" + Emoji("bountystar", table) + " Rank: " + IntStr(c.position) + " "
      + "\n" + Emoji("gameroom", table) + " " + IntStr(c.membersCount) + "/100 ")
  }

  function PlayerFields(players: seq<TopPlayer>, table: Utils.EmojiTable): (r: seq<Field>)
    ensures |r| == |players|
    ensures forall k :: 0 <= k < |players| ==> r[k] == PlayerField(players[k], table)
  {
    seq(|players|, k requires 0 <= k < |players| => PlayerField(players[k], table))
  }

  function ClubFields(clubs: seq<TopClub>, table: Utils.EmojiTable): (r: seq<Field>)
    ensures |r| == |clubs|
    ensures forall k :: 0 <= k < |clubs| ==> r[k] == ClubField(clubs[k], table)
  {
    seq(|clubs|, k requires 0 <= k < |clubs| => ClubField(clubs[k], table))
  }

  function TopHeader(psa: Option<string>, author: string, what: string): (h: Embed)
    ensures h.fields == []
  {
    Embed("", author, TopDescription(psa, what), [], Footer(PoweredBy, ""))
  }

  /** `format_top_players`: 12 players a page in their order; an empty list raises at the first player's avatar. */
  method FormatTopPlayers(psa: Option<string>, players: seq<TopPlayer>, table: Utils.EmojiTable) returns (r: Option<seq<Embed>>)
    ensures r.None? <==> |players| == 0
    ensures r.Some? ==>
      r.value == PagesOf(TopHeader(psa, "Top Players", "players"),
                         Chunks(PlayerFields(players, table), 12))
  {
    if |players| == 0 {
      return None;
    }
    var fields := PlayerFields(players, table);
    var pages := TwelvePerPage(TopHeader(psa, "Top Players", "players"), fields);
    return Some(pages);
  }

  /** `format_top_clubs`: the same paging over clubs. */
  method FormatTopClubs(psa: Option<string>, clubs: seq<TopClub>, table: Utils.EmojiTable) returns (r: Option<seq<Embed>>)
    ensures r.None? <==> |clubs| == 0
    ensures r.Some? ==>
      r.value == PagesOf(TopHeader(psa, "Top Clubs", "clubs"),
                         Chunks(ClubFields(clubs, table), 12))
  {
    if |clubs| == 0 {
      return None;
    }
    var fields := ClubFields(clubs, table);
    var pages := TwelvePerPage(TopHeader(psa, "Top Clubs", "clubs"), fields);
    return Some(pages);
  }

  /** A leaderboard of n >= 1 entries takes ceil(n / 12) pages of at most 12 fields, holding the fields in their order. */
  lemma TopPagesShape(header: Embed, fields: seq<Field>)
    requires |fields| >= 1
    ensures var pages := PagesOf(header, Chunks(fields, 12));
      && |pages| == CeilDiv(|fields|, 12)
      && (forall p :: 0 <= p < |pages| ==> 1 <= |pages[p].fields| <= 12)
      && Flatten(Chunks(fields, 12)) == fields
  {
    ChunksShape(fields, 12);
  }

  /** 25 players take three pages: 12, 12 and the last one alone. */
  lemma TwentyFivePlayers(fields: seq<Field>)
    requires |fields| == 25
    ensures var pages := Chunks(fields, 12);
      |pages| == 3 && |pages[0]| == 12 && |pages[1]| == 12 && pages[2] == [fields[24]]
  {
    assert fields[12..][12..] == fields[24..] == [fields[24]];
    assert Chunks(fields[24..], 12) == [[fields[24]]];
    assert Chunks(fields[12..], 12) == [fields[12..][..12]] + [[fields[24]]];
  }

  // ---------------------------------------------------------------------
  // Robo Rumble and Boss Fight leaderboards

  /**
   * The pages of format_robo and format_boss as written: ceil(n / size) pages,
   * page rnd holding entries rnd to rnd + size - 1; an index past the end
   * raises (None).
   */
  function WindowPages<T>(items: seq<T>, size: nat): (r: Option<seq<seq<T>>>)
    requires size > 0
    ensures r.Some? ==> |r.value| == CeilDiv(|items|, size)
  {
    var count := CeilDiv(|items|, size);
    if count > 0 && count - 1 + size > |items| then None
    else Some(seq(count, rnd requires 0 <= rnd < count => items[rnd..rnd + size]))
  }

  /** With ten teams and five a page, the second page repeats teams 1 to 4 and teams 6 to 9 are never shown. */
  lemma TenTeamsOverlap<T>(teams: seq<T>)
    requires |teams| == 10
    ensures WindowPages(teams, 5) == Some([teams[0..5], teams[1..6]])
  {
    assert CeilDiv(|teams|, 5) == 2;
    assert WindowPages(teams, 5).Some?;
    var w := WindowPages(teams, 5).value;
    assert |w| == 2 && w[0] == teams[0..5] && w[1] == teams[1..6];
    assert w == [teams[0..5], teams[1..6]];
  }

  /** Any list shorter than a page, other than the empty one, raises. */
  lemma ShortBoardRaises<T>(items: seq<T>, size: nat)
    requires size > 0 && 0 < |items| < size
    ensures WindowPages(items, size) == None
  {
    DivModUnique(|items| + size - 1, size, 1, |items| - 1);
  }

  /** One member of a Robo Rumble team: the brawler played and the player's name. */
  datatype Slot = Slot(brawler: Utils.NameArg, player: string)

  /** A Robo Rumble team: its time and its three members (`brawler1`/`player1` to `brawler3`/`player3`). */
  datatype RoboTeam = RoboTeam(duration: int, first: Slot, second: Slot, third: Slot)

  datatype BossEntry = BossEntry(duration: int, brawler: Utils.NameArg, player: string)

  /** "{m}m {s}s" of a duration in seconds. */
  function DurationName(duration: int): string
  {
    IntStr(duration / 60) + "m " + IntStr(duration % 60) + "s"
  }

  /** One line of a team's rankings: the brawler's emoji, a space, the player and a newline. */
  function SlotLine(s: Slot, table: Utils.EmojiTable): string
  {
    Utils.EmojiFor(s.brawler, true, table) + " " + s.player + "\n"
  }

  function RoboField(t: RoboTeam, table: Utils.EmojiTable): Field
  {
    Field(DurationName(t.duration), SlotLine(t.first, table) + SlotLine(t.second, table) + SlotLine(t.third, table))
  }

  function BossField(b: BossEntry, table: Utils.EmojiTable): Field
  {
    Field(DurationName(b.duration), Utils.EmojiFor(b.brawler, true, table) + " " + b.player + "\n")
  }

  function RoboFields(teams: seq<RoboTeam>, table: Utils.EmojiTable): (r: seq<Field>)
    ensures |r| == |teams|
    ensures forall k :: 0 <= k < |teams| ==> r[k] == RoboField(teams[k], table)
  {
    seq(|teams|, k requires 0 <= k < |teams| => RoboField(teams[k], table))
  }

  function BossFields(players: seq<BossEntry>, table: Utils.EmojiTable): (r: seq<Field>)
    ensures |r| == |players|
    ensures forall k :: 0 <= k < |players| ==> r[k] == BossField(players[k], table)
  {
    seq(|players|, k requires 0 <= k < |players| => BossField(players[k], table))
  }

  function RoboHeader(n: nat, lastUpdated: string): (h: Embed)
    ensures h.fields == []
  {
    Embed("Top Teams in Robo Rumble", "", "Top " + NatStr(n) + " teams!\nLast updated: " + lastUpdated + " ago", [], Footer("Statsy", ""))
  }

  function BossHeader(n: nat, lastUpdated: string, activeLevel: string): (h: Embed)
    ensures h.fields == []
  {
    Embed("Top Bosses in Boss Fight ", "",
          "Top " + NatStr(n) + " bosses!\n\nLast updated: " + lastUpdated + " ago\nMap: " + activeLevel,
          [], Footer("Statsy", ""))
  }

  /** `format_robo` with the pages cut as consecutive groups of five teams. */
  method FormatRobo(teams: seq<RoboTeam>, elapsed: int, table: Utils.EmojiTable) returns (pages: seq<Embed>)
    ensures pages == PagesOf(RoboHeader(|teams|, ElapsedText(ElapsedSplit(elapsed))),
                             Chunks(RoboFields(teams, table), 5))
  {
    var fmt := LastUpdated(elapsed);
    var fields := RoboFields(teams, table);
    pages := PagesOf(RoboHeader(|teams|, fmt), Chunks(fields, 5));
  }

  /** `format_boss` with the pages cut as consecutive groups of ten players. */
  method FormatBoss(players: seq<BossEntry>, elapsed: int, activeLevel: string, table: Utils.EmojiTable) returns (pages: seq<Embed>)
    ensures pages == PagesOf(BossHeader(|players|, ElapsedText(ElapsedSplit(elapsed)), activeLevel),
                             Chunks(BossFields(players, table), 10))
  {
    var fmt := LastUpdated(elapsed);
    var fields := BossFields(players, table);
    pages := PagesOf(BossHeader(|players|, fmt, activeLevel), Chunks(fields, 10));
  }

  /** Every Robo Rumble team is shown once, team k on page k / 5 at position k % 5, on ceil(n / 5) pages. */
  lemma RoboTeamPlacement(teams: seq<RoboTeam>, header: Embed, table: Utils.EmojiTable, k: nat)
    requires k < |teams|
    ensures var pages := PagesOf(header, Chunks(RoboFields(teams, table), 5));
      && |pages| == CeilDiv(|teams|, 5)
      && Flatten(Chunks(RoboFields(teams, table), 5)) == RoboFields(teams, table)
      && k / 5 < |pages| && k % 5 < |pages[k / 5].fields|
      && pages[k / 5].fields[k % 5] == RoboField(teams[k], table)
  {
    PagedFieldPlacement(header, RoboFields(teams, table), 5, k);
  }

  /** Every Boss Fight player is shown once, player k on page k / 10 at position k % 10, on ceil(n / 10) pages. */
  lemma BossPlayerPlacement(players: seq<BossEntry>, header: Embed, table: Utils.EmojiTable, k: nat)
    requires k < |players|
    ensures var pages := PagesOf(header, Chunks(BossFields(players, table), 10));
      && |pages| == CeilDiv(|players|, 10)
      && Flatten(Chunks(BossFields(players, table), 10)) == BossFields(players, table)
      && k / 10 < |pages| && k % 10 < |pages[k / 10].fields|
      && pages[k / 10].fields[k % 10] == BossField(players[k], table)
  {
    PagedFieldPlacement(header, BossFields(players, table), 10, k);
  }

  // ---------------------------------------------------------------------
  // Clubs

  datatype Member = Member(name: string, tag: string, trophies: int, expLevel: int, avatarId: int)

  datatype Club = Club(name: string, tag: string, description: string, status: string, trophies: int,
                       membersCount: int, requiredTrophies: int, onlineMembers: int, members: seq<Member>)

  /** Places m before the first member with a lower level, so that it stays ahead of the equal ones that follow. */
  function InsertByExp(m: Member, sorted: seq<Member>): (r: seq<Member>)
    ensures multiset(r) == multiset(sorted) + multiset{m}
    ensures |r| == |sorted| + 1
  {
    if sorted == [] || m.expLevel >= sorted[0].expLevel then [m] + sorted
    else
      assert sorted == [sorted[0]] + sorted[1..];
      [sorted[0]] + InsertByExp(m, sorted[1..])
  }

  /** `sorted(members, key=exp_level, reverse=True)`, stable like Python's sort. */
  function SortByExp(members: seq<Member>): (r: seq<Member>)
    ensures multiset(r) == multiset(members)
    ensures |r| == |members|
  {
    if members == [] then []
    else
      assert members == [members[0]] + members[1..];
      InsertByExp(members[0], SortByExp(members[1..]))
  }

  predicate ExpDescending(s: seq<Member>)
  {
    forall i, j :: 0 <= i < j < |s| ==> s[i].expLevel >= s[j].expLevel
  }

  lemma {:induction false} InsertKeepsDescending(m: Member, sorted: seq<Member>)
    requires ExpDescending(sorted)
    ensures ExpDescending(InsertByExp(m, sorted))
    decreases |sorted|
  {
    if sorted != [] && m.expLevel < sorted[0].expLevel {
      InsertKeepsDescending(m, sorted[1..]);
      InsertBounded(m, sorted[1..], sorted[0].expLevel);
      var r := InsertByExp(m, sorted[1..]);
      assert InsertByExp(m, sorted) == [sorted[0]] + r;
    }
  }

  /** Inserting a member no higher than a bound into members no higher than it leaves all of them at most the bound. */
  lemma {:induction false} InsertBounded(m: Member, sorted: seq<Member>, bound: int)
    requires m.expLevel <= bound
    requires forall j :: 0 <= j < |sorted| ==> sorted[j].expLevel <= bound
    ensures forall j :: 0 <= j < |InsertByExp(m, sorted)| ==> InsertByExp(m, sorted)[j].expLevel <= bound
    decreases |sorted|
  {
    if sorted != [] && m.expLevel < sorted[0].expLevel {
      InsertBounded(m, sorted[1..], bound);
      assert InsertByExp(m, sorted) == [sorted[0]] + InsertByExp(m, sorted[1..]);
    }
  }

  /** The sorted list is ordered by level, highest first. */
  lemma {:induction false} SortByExpDescending(members: seq<Member>)
    ensures ExpDescending(SortByExp(members))
    decreases |members|
  {
    if members != [] {
      SortByExpDescending(members[1..]);
      InsertKeepsDescending(members[0], SortByExp(members[1..]));
    }
  }

  /** The three members the experience list shows have levels no later member exceeds. */
  lemma TopThreeAreMostExperienced(members: seq<Member>, i: nat, j: nat)
    requires i < 3 <= j < |members|
    ensures SortByExp(members)[i].expLevel >= SortByExp(members)[j].expLevel
  {
    SortByExpDescending(members);
  }

  function PusherLine(m: Member, table: Utils.EmojiTable): string
  {
    "**" + Utils.EmojiFor(Utils.IntName(m.avatarId), true, table) + " " + m.name + "**"
    + "\n" + Emoji("bstrophy", table) + " " + IntStr(m.trophies) + " "
    + "\n#" + m.tag
  }

  function ExperienceLine(m: Member, table: Utils.EmojiTable): string
  {
    "**" + Utils.EmojiFor(Utils.IntName(m.avatarId), true, table) + " " + m.name + "**"
    + "\n" + Emoji("xp", table) + " " + IntStr(m.expLevel)
    + "\n#" + m.tag
  }

  /** The two top lists of format_club: empty unless the club has at least three members, else the first three members and the three highest levels. */
  function TopLists(members: seq<Member>, table: Utils.EmojiTable): (r: (seq<string>, seq<string>))
    ensures |members| < 3 ==> r.0 == [] && r.1 == []
    ensures |members| >= 3 ==>
      && |r.0| == 3 && |r.1| == 3
      && (forall i :: 0 <= i < 3 ==> r.0[i] == PusherLine(members[i], table))
      && (forall i :: 0 <= i < 3 ==> r.1[i] == ExperienceLine(SortByExp(members)[i], table))
  {
    if |members| < 3 then ([], [])
    else
      var sorted := SortByExp(members);
      (seq(3, i requires 0 <= i < 3 => PusherLine(members[i], table)),
       seq(3, i requires 0 <= i < 3 => ExperienceLine(sorted[i], table)))
  }

  function ClubHeader(b: Club): (h: Embed)
    ensures h.fields == []
  {
    Embed("", b.name + " (#" + b.tag + ")", b.description, [], Footer(PoweredBy, ""))
  }

  /** The first page of format_club: the club's description and five stat fields. */
  function ClubInfoPage(b: Club, table: Utils.EmojiTable): (r: Embed)
    ensures r.description == b.description && |r.fields| == 5
  {
    ClubHeader(b).(fields := [
      Field("Type", b.status + " \U{1F4E9}"),
      Field("Score", IntStr(b.trophies) + " Trophies " + Emoji("bstrophy", table)),
      Field("Members", IntStr(b.membersCount) + "/100 " + Emoji("gameroom", table)),
      Field("Required Trophies", IntStr(b.requiredTrophies) + " " + Emoji("bstrophy", table)),
      Field("Online Players", IntStr(b.onlineMembers) + " " + Emoji("online", table))])
  }

  /** The second page of format_club: a copy of the header with the two top lists, each added only when its text is non-empty. */
  function TopListsPage(b: Club, table: Utils.EmojiTable): (r: Embed)
    ensures r.description == "Top Players/Experienced Players for this club."
    ensures |b.members| < 3 <==> r.fields == []
    ensures |b.members| >= 3 ==>
      var lists := TopLists(b.members, table);
      r.fields == [Field("Top Players", Join(lists.0, "\n\n")), Field("Top Experience", Join(lists.1, "\n\n"))]
  {
    var lists := TopLists(b.members, table);
    var players := Field("Top Players", Join(lists.0, "\n\n"));
    var experience := Field("Top Experience", Join(lists.1, "\n\n"));
    TopListTexts(b.members, table);
    ClubHeader(b).(description := "Top Players/Experienced Players for this club.",
                   fields := (if players.value != "" then [players] else [])
                             + (if experience.value != "" then [experience] else []))
  }

  /** `format_club`: the stats page and the top-lists page. */
  function FormatClub(b: Club, table: Utils.EmojiTable): seq<Embed>
  {
    [ClubInfoPage(b, table), TopListsPage(b, table)]
  }

  /** Each top-list text is empty exactly when the club has fewer than three members. */
  lemma TopListTexts(members: seq<Member>, table: Utils.EmojiTable)
    ensures var lists := TopLists(members, table);
      && (Join(lists.0, "\n\n") == "" <==> |members| < 3)
      && (Join(lists.1, "\n\n") == "" <==> |members| < 3)
  {
    var lists := TopLists(members, table);
    if |members| >= 3 {
      assert lists.0[0] == PusherLine(members[0], table);
      assert PusherLine(members[0], table)[0] == '*';
      assert lists.1[0] == ExperienceLine(SortByExp(members)[0], table);
      assert ExperienceLine(SortByExp(members)[0], table)[0] == '*';
      JoinOfLinesNonEmpty(lists.0);
      JoinOfLinesNonEmpty(lists.1);
    }
  }

  lemma JoinOfLinesNonEmpty(lines: seq<string>)
    requires |lines| == 0 || |lines| == 3
    requires |lines| == 3 ==> lines[0] != ""
    ensures (Join(lines, "\n\n") == "") <==> |lines| == 0
  {
  }

  /** The three lines of `format_club_stats`. */
  function ClubStatsLines(b: Club, table: Utils.EmojiTable): seq<string>
  {
    [Emoji("gameroom", table) + " " + IntStr(|b.members|) + "/100",
     Emoji("bsangel", table) + " " + IntStr(b.trophies),
     Emoji("bstrophy2", table) + " " + IntStr(b.requiredTrophies) + " Required"]
  }

  /** `format_club_stats`: the three lines joined by newlines. */
  function FormatClubStats(b: Club, table: Utils.EmojiTable): (r: string)
    ensures var lines := ClubStatsLines(b, table);
      r == lines[0] + "\n" + lines[1] + "\n" + lines[2]
  {
    var lines := ClubStatsLines(b, table);
    JoinThree(lines[0], lines[1], lines[2], "\n");
    assert lines == [lines[0], lines[1], lines[2]];
    Join(lines, "\n")
  }

  lemma IntStrHasNoNewline(i: int)
    ensures '\n' !in IntStr(i)
  {
    var s := IntStr(i);
    IntStrDigits(i);
    forall k | 0 <= k < |s| ensures s[k] != '\n' {
      if i < 0 && k > 0 {
        assert s[k] == s[1..][k - 1];
      }
    }
  }

  lemma LineHasNoNewline(emoji: string, i: int, suffix: string)
    requires '\n' !in emoji && '\n' !in suffix
    ensures '\n' !in emoji + " " + IntStr(i) + suffix
  {
    IntStrHasNoNewline(i);
  }

  /** No line of the stats block holds a newline when no emoji text does. */
  lemma ClubStatsLinesHaveNoNewline(b: Club, table: Utils.EmojiTable)
    requires forall v :: v in table.Values ==> '\n' !in v
    ensures forall k :: 0 <= k < 3 ==> '\n' !in ClubStatsLines(b, table)[k]
  {
    var lines := ClubStatsLines(b, table);
    assert '\n' !in lines[0] by {
      Utils.EmojiForKeepsOut(Utils.StrName("gameroom"), table, '\n');
      LineHasNoNewline(Emoji("gameroom", table), |b.members|, "/100");
    }
    assert '\n' !in lines[1] by {
      Utils.EmojiForKeepsOut(Utils.StrName("bsangel"), table, '\n');
      LineHasNoNewline(Emoji("bsangel", table), b.trophies, "");
      assert Emoji("bsangel", table) + " " + IntStr(b.trophies) + "" == lines[1];
    }
    assert '\n' !in lines[2] by {
      Utils.EmojiForKeepsOut(Utils.StrName("bstrophy2"), table, '\n');
      LineHasNoNewline(Emoji("bstrophy2", table), b.requiredTrophies, " Required");
    }
  }

  /** When no emoji text holds a newline, splitting the stats block on newlines gives its three lines back. */
  lemma ClubStatsSplit(b: Club, table: Utils.EmojiTable)
    requires forall v :: v in table.Values ==> '\n' !in v
    ensures Split(FormatClubStats(b, table), '\n') == ClubStatsLines(b, table)
  {
    ClubStatsLinesHaveNoNewline(b, table);
    SplitJoin(ClubStatsLines(b, table), '\n');
  }
}
