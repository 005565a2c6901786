/** The music widget's playlist position: cyclic skipping over `n` songs, the once-a-second
    progress tick, and the "m:ss" time display. */
module Playlist {
  import opened Wrappers
  import opened Text
  import Cyclic

  /** Whole seconds stand in for the audio element's fractional times. */
  datatype Player = Player(songIndex: nat, currentTime: nat, isPlaying: bool)

  const InitialPlayer: Player := Player(0, 0, false)

  /** The player with its controls only exists for a non-empty playlist: an empty one renders a
      placeholder instead. */
  predicate Renders(n: nat)
  {
    n > 0
  }

  /** Both skip buttons are enabled only when there is another song to skip to. */
  predicate SkipEnabled(n: nat)
  {
    n > 1
  }

  /** Skips forward, wrapping after the last song, and rewinds to the start. */
  function NextSong(p: Player, n: nat): (r: Player)
    requires Renders(n)
    ensures r.songIndex < n && r.currentTime == 0 && r.isPlaying == p.isPlaying
    ensures p.songIndex + 1 < n ==> r.songIndex == p.songIndex + 1
    ensures p.songIndex == n - 1 ==> r.songIndex == 0
  {
    Player(Cyclic.Succ(p.songIndex, n), 0, p.isPlaying)
  }

  /** Skips back, wrapping before the first song, and rewinds to the start. */
  function PrevSong(p: Player, n: nat): (r: Player)
    requires Renders(n)
    ensures r.songIndex < n && r.currentTime == 0 && r.isPlaying == p.isPlaying
    ensures 0 < p.songIndex <= n ==> r.songIndex == p.songIndex - 1
    ensures p.songIndex == 0 ==> r.songIndex == n - 1
  {
    Player(Cyclic.Pred(p.songIndex, n), 0, p.isPlaying)
  }

  /** For an index inside the playlist, skipping back undoes skipping forward and vice versa
      (up to the rewind both perform). */
  lemma SkipsAreInverse(p: Player, n: nat)
    requires Renders(n) && p.songIndex < n
    ensures PrevSong(NextSong(p, n), n) == p.(currentTime := 0)
    ensures NextSong(PrevSong(p, n), n) == p.(currentTime := 0)
  {
    Cyclic.PredSuccInverse(p.songIndex, n);
  }

  function SkipForward(p: Player, n: nat, times: nat): Player
    requires Renders(n)
  {
    if times == 0 then p else NextSong(SkipForward(p, n, times - 1), n)
  }

  /** Skipping forward `times` times moves `times` places round the playlist, so `n` skips come
      back to the same song. */
  lemma SkipForwardCycles(p: Player, n: nat, times: nat)
    requires Renders(n) && p.songIndex < n
    ensures SkipForward(p, n, times).songIndex == (p.songIndex + times) % n
    ensures SkipForward(p, n, n).songIndex == p.songIndex
  {
    SkipForwardOnRing(p, n, times);
    SkipForwardOnRing(p, n, n);
    Cyclic.SuccNMoves(p.songIndex, n, times);
    Cyclic.FullTurn(p.songIndex, n);
  }

  lemma {:induction false} SkipForwardOnRing(p: Player, n: nat, times: nat)
    requires Renders(n)
    ensures SkipForward(p, n, times).songIndex == Cyclic.SuccN(p.songIndex, n, times)
  {
    if times > 0 {
      SkipForwardOnRing(p, n, times - 1);
    }
  }

  /** With a single song the skip buttons are disabled; the end-of-track skip only restarts it. */
  lemma SingleSongRestarts(p: Player)
    requires p.songIndex == 0
    ensures !SkipEnabled(1)
    ensures NextSong(p, 1) == PrevSong(p, 1) == p.(currentTime := 0)
  {
  }

  /** The once-a-second update while playing: the display follows the audio element, and once
      its time reaches the track's duration the player skips to the next song. */
  function Tick(p: Player, n: nat, audioTime: nat, duration: nat): (r: Player)
    requires Renders(n)
    ensures audioTime < duration ==> r == p.(currentTime := audioTime)
    ensures audioTime >= duration ==> r == NextSong(p, n)
  {
    var q := p.(currentTime := audioTime);
    if audioTime >= duration then NextSong(q, n) else q
  }

  /** While the track plays the player stays on its song; the tick that reaches the track's
      duration is exactly one skip forward, so the index stays on the playlist either way. */
  lemma TickStaysUntilTrackEnds(p: Player, n: nat, audioTime: nat, duration: nat)
    requires Renders(n) && p.songIndex < n
    ensures var r := Tick(p, n, audioTime, duration);
            && r.songIndex < n
            && r.isPlaying == p.isPlaying
            && (audioTime < duration ==> r.songIndex == p.songIndex && r.currentTime == audioTime)
            && (audioTime >= duration ==> r == SkipForward(p, n, 1))
  {
  }

  /** The time display: whole minutes without leading zeros, a colon, and the remaining
      seconds as two digits. */
  function FormatTime(seconds: nat): (r: String)
    ensures |r| >= 4 && r[|r| - 3] == ':'
    ensures forall k :: 0 <= k < |r| && k != |r| - 3 ==> IsDigit(r[k])
    ensures |r| > 4 ==> r[0] != '0'
    ensures ParseDecimal(r[..|r| - 3]) == seconds / 60
    ensures ParseDecimal(r[|r| - 2..]) == seconds % 60
  {
    var m := Decimal(seconds / 60);
    var ss := PadStart2(Decimal(seconds % 60));
    SecondsRoundTrip(seconds % 60);
    DecimalRoundTrip(seconds / 60);
    var r := m + ":" + ss;
    assert r[..|r| - 3] == m;
    assert r[|r| - 2..] == ss;
    r
  }

  lemma DecimalBelowHundred(n: nat)
    requires n < 100
    ensures |Decimal(n)| <= 2
  {
    if n >= 10 {
      assert Decimal(n) == Decimal(n / 10) + [DigitChar(n % 10)];
    }
  }

  /** Reads a display back as a number of seconds: minutes without leading zeros, a colon,
      and two digits of seconds from 00 to 59; anything else is rejected. */
  function ParseTime(t: String): (r: Option<nat>)
    ensures r.Some? ==> t != [] && ':' in t
  {
    var parts := SplitOn(t, ':');
    if |parts| == 2 && |parts[0]| >= 1 && |parts[1]| == 2
       && (forall k :: 0 <= k < |parts[0]| ==> IsDigit(parts[0][k]))
       && (|parts[0]| > 1 ==> parts[0][0] != '0')
       && IsDigit(parts[1][0]) && IsDigit(parts[1][1])
       && ParseDecimal(parts[1]) < 60
    then
      SplitJoin(t, ':');
      assert t == parts[0] + [':'] + parts[1];
      assert t[|parts[0]|] == ':';
      Some(Seconds(ParseDecimal(parts[0]), ParseDecimal(parts[1])))
    else None
  }

  lemma DigitsHaveNoColon(s: String)
    requires forall k :: 0 <= k < |s| ==> IsDigit(s[k])
    ensures ':' !in s
  {
  }

  /** The two-digit seconds field reads back as the seconds it shows. */
  lemma SecondsRoundTrip(x: nat)
    requires x < 60
    ensures var ss := PadStart2(Decimal(x));
            |ss| == 2 && IsDigit(ss[0]) && IsDigit(ss[1]) && ParseDecimal(ss) == x
  {
    var sec := Decimal(x);
    DecimalBelowHundred(x);
    DecimalRoundTrip(x);
    var ss := PadStart2(sec);
    if x < 10 {
      assert ss == ['0'] + sec;
      assert ss[..1] == ['0'];
    } else {
      assert ss == sec;
    }
  }

  /** The display loses nothing: reading it back gives the number of seconds shown. */
  lemma FormatTimeRoundTrip(seconds: nat)
    ensures ParseTime(FormatTime(seconds)) == Some(seconds)
  {
    var m := Decimal(seconds / 60);
    var ss := PadStart2(Decimal(seconds % 60));
    SecondsRoundTrip(seconds % 60);
    DecimalRoundTrip(seconds / 60);
    DigitsHaveNoColon(m);
    DigitsHaveNoColon(ss);
    assert FormatTime(seconds) == m + [':'] + ss;
    SplitPair(m, ss, ':');
  }

  /** A two-digit field is the padded decimal form of the number it reads as. */
  lemma TwoDigitsArePadded(ss: String)
    requires |ss| == 2 && IsDigit(ss[0]) && IsDigit(ss[1])
    ensures PadStart2(Decimal(ParseDecimal(ss))) == ss
  {
    if ss[0] == '0' {
      LeadingZeroIsPadding(ss);
    } else {
      DecimalOfParse(ss);
    }
  }

  lemma LeadingZeroIsPadding(ss: String)
    requires |ss| == 2 && ss[0] == '0' && IsDigit(ss[1])
    ensures PadStart2(Decimal(ParseDecimal(ss))) == ss
  {
    var hi := ss[..1];
    assert hi[..0] == [] && hi[0] == '0';
    assert ParseDecimal(hi) == 0;
    var x := DigitValue(ss[1]);
    assert ParseDecimal(ss) == x;
    assert Decimal(x) == [ss[1]];
    assert seq(1, _ => '0') == ['0'];
    assert ss == ['0'] + [ss[1]];
  }

  /** The number of seconds shown as `m` minutes and `x` seconds. */
  function Seconds(m: nat, x: nat): (s: nat)
    requires x < 60
    ensures s / 60 == m && s % 60 == x
  {
    m * 60 + x
  }

  /** Minutes without leading zeros and a two-digit seconds field below 60 are the display of
      the time they stand for. */
  lemma DisplayOfFields(mm: String, ss: String)
    requires |mm| >= 1 && (forall k :: 0 <= k < |mm| ==> IsDigit(mm[k])) && (|mm| > 1 ==> mm[0] != '0')
    requires |ss| == 2 && (forall k :: 0 <= k < |ss| ==> IsDigit(ss[k])) && ParseDecimal(ss) < 60
    ensures FormatTime(Seconds(ParseDecimal(mm), ParseDecimal(ss))) == mm + [':'] + ss
  {
    var s := Seconds(ParseDecimal(mm), ParseDecimal(ss));
    DecimalOfParse(mm);
    TwoDigitsArePadded(ss);
    assert FormatTime(s) == Decimal(s / 60) + ":" + PadStart2(Decimal(s % 60));
  }

  /** Only displays are accepted: every string that reads back as some number of seconds is
      exactly the display of that number, so the display is unique. */
  lemma ParseTimeOnlyDisplays(t: String)
    ensures ParseTime(t).Some? ==> FormatTime(ParseTime(t).value) == t
  {
    if ParseTime(t).Some? {
      var parts := SplitOn(t, ':');
      SplitJoin(t, ':');
      assert t == parts[0] + [':'] + parts[1];
      DisplayOfFields(parts[0], parts[1]);
    }
  }
  /** 75 seconds are shown as "1:15". */
  lemma SeventyFiveSeconds()
    ensures FormatTime(75) == "1:15"
  {
    assert 75 / 60 == 1 && 75 % 60 == 15;
    var m, ss := Decimal(1), PadStart2(Decimal(15));
    assert m == "1";
    assert Decimal(15) == Decimal(1) + [DigitChar(5)] == "15";
    assert ss == "15";
    assert FormatTime(75) == m + ":" + ss;
  }

  /** The strings "0:75" and "01:15" are not displays and are rejected. */
  lemma NonDisplaysRejected()
    ensures ParseTime("0:75") == None
    ensures ParseTime("01:15") == None
  {
    assert "0:75" == "0" + [':'] + "75";
    SplitPair("0", "75", ':');
    assert "75"[..1] == "7" && "7"[..0] == [];
    assert "01:15" == "01" + [':'] + "15";
    SplitPair("01", "15", ':');
  }
}
