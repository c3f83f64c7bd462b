/**
 * The string helpers of lib/utils.ts: `formatTime` and the string branch
 * of `formatDateForInput`.
 */
module Utils {
  import opened Strings

  /** `formatTime(time)`: times are stored as display text already. */
  function FormatTime(time: string): (r: string)
    ensures r == time
  {
    time
  }

  /**
   * `formatDateForInput(date)` for a string: the text before the first
   * 'T' of an ISO timestamp, or the whole string when it holds no 'T'.
   */
  function FormatDateForInput(date: string): (r: string)
    ensures 'T' !in r
    ensures r <= date
    ensures 'T' in date ==> |r| < |date| && date[|r|] == 'T'
    ensures 'T' !in date ==> r == date
  {
    SplitHead(date, 'T');
    if 'T' in date then Split(date, 'T')[0] else date
  }

  /** Formatting a formatted date changes nothing. */
  lemma FormatDateIdempotent(date: string)
    ensures FormatDateForInput(FormatDateForInput(date)) == FormatDateForInput(date)
  {
  }

  /** An ISO timestamp is cut to its calendar date. */
  lemma IsoTimestampExample()
    ensures FormatDateForInput("2024-01-05T10:30Z") == "2024-01-05"
  {
    var d := "2024-01-05";
    assert 'T' !in d by {
      assert forall i :: 0 <= i < |d| ==> d[i] != 'T';
    }
    SplitAt(d, "10:30Z", 'T');
    assert d + ['T'] + "10:30Z" == "2024-01-05T10:30Z";
  }
}
