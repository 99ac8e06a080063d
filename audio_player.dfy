/** The audio player's position and duration display (components/ui/AudioPlayer.tsx): a time in
    milliseconds shown as "m:ss". */
module AudioPlayer {
  import opened Wrappers
  import opened Text
  import opened Clock

  /** `formatTime(millis)`: whole seconds (rounded down), then minutes and the seconds padded
      to two digits. `Math.floor` of a quotient by a positive constant is Dafny's `/`. */
  function FormatMillis(millis: int): string {
    var totalSeconds := millis / 1000;
    var minutes := totalSeconds / 60;
    var seconds := JsRem(totalSeconds, 60);
    IntStr(minutes) + ":" + PadStart2(IntStr(seconds))
  }

  /** For a non-negative time the minutes and the two-digit seconds make up the whole seconds. */
  lemma MillisFields(millis: int)
    requires millis >= 0
    ensures var totalSeconds := millis / 1000;
      var m := totalSeconds / 60;
      var s := totalSeconds % 60;
      && m * 60 + s == totalSeconds && 0 <= s < 60
      && |PadStart2(NatStr(s))| == 2 && AllDigits(PadStart2(NatStr(s)))
      && FormatMillis(millis) == NatStr(m) + ":" + PadStart2(NatStr(s))
  {
    Pad2Digits((millis / 1000) % 60);
  }

  /** Reading the display back gives the whole seconds of the time. */
  lemma MillisReadBack(millis: int)
    requires millis >= 0
    ensures ReadClock(FormatMillis(millis)) == Some(millis / 1000)
  {
    MillisFields(millis);
    ReadMinutesSeconds((millis / 1000) / 60, (millis / 1000) % 60);
  }

  /** The part below a second never shows (the remainder here rounds down, as `Math.floor`
      does, so this holds for negative times too). */
  lemma SubSecondIgnored(millis: int)
    ensures FormatMillis(millis) == FormatMillis(millis - millis % 1000)
  {
    assert (millis - millis % 1000) / 1000 == millis / 1000;
  }

  /** A stopped or finished track shows its position reset to 0 as "0:00". */
  lemma ResetShowsZero()
    ensures FormatMillis(0) == "0:00"
  {
  }
}
