/**
 * src/utils/timeUtils.ts: reading the legacy export's timestamps. The text before the
 * first '+' is trimmed, its first space becomes 'T', and the result is read as UTC.
 */
module ImportTime {
  import opened Text
  import opened Wrappers

  /** `dateString.split('+')[0].trim().replace(' ', 'T')`. */
  function CleanTimestamp(s: string): (r: string)
    ensures '+' !in r
    ensures |r| <= |s|
    ensures r == [] || (!IsSpace(r[0]) && !IsSpace(r[|r| - 1]))
  {
    var t := Trim(BeforeFirst(s, '+'));
    TrimMeaning(BeforeFirst(s, '+'));
    assert forall k :: 0 <= k < |t| ==> t[k] in BeforeFirst(s, '+');
    var r := ReplaceFirst(t, ' ', 'T');
    assert forall k :: 0 <= k < |r| ==> r[k] == t[k] || r[k] == 'T';
    r
  }

  /** `parseChileanDate`. JavaScript's `Date` parser and the current instant are parameters:
      `parseUtc` gives `None` for an Invalid Date. An empty string yields the current instant. */
  function ParseChileanDate<T>(s: string, parseUtc: string -> Option<T>, now: T): (r: Option<T>)
    ensures s == "" ==> r == Some(now)
    ensures s != "" ==> r == parseUtc(CleanTimestamp(s) + "Z")
  {
    if s == "" then Some(now) else parseUtc(CleanTimestamp(s) + "Z")
  }

  /** What the parser receives never carries the original offset and always ends in 'Z'. */
  lemma ParserInput(s: string)
    ensures var q := CleanTimestamp(s) + "Z";
      '+' !in q && q[|q| - 1] == 'Z'
  {
  }

  /** A Supabase-style `date time+zone` (or `date time`) becomes `dateTtime`; a further
      space inside `time` is left where it is, since only the first one is replaced. */
  lemma CleanSupabaseTimestamp(date: string, time: string, zone: string)
    requires date != [] && time != []
    requires ' ' !in date && '+' !in date && '+' !in time
    requires !IsSpace(date[0]) && !IsSpace(time[|time| - 1])
    ensures CleanTimestamp(date + " " + time + "+" + zone) == date + "T" + time
    ensures CleanTimestamp(date + " " + time) == date + "T" + time
  {
    var body := date + " " + time;
    assert '+' !in body;
    SplitAt(body, '+', zone);
    AbsentIndex(body, '+');
    TrimOfTrimmed(body);
    SplitAt(date, ' ', time);
    ReplaceAt(date, ' ', 'T', time);
  }

  lemma AbsentIndex(s: string, c: char)
    requires c !in s
    ensures BeforeFirst(s, c) == s
  {
  }

  /** Before the first `c` of `x + [c] + y` (with no `c` in `x`) is exactly `x`. */
  lemma SplitAt(x: string, c: char, y: string)
    requires c !in x
    ensures IndexOf(x + [c] + y, c) == |x|
    ensures BeforeFirst(x + [c] + y, c) == x
  {
    var s := x + [c] + y;
    var i := IndexOf(s, c);
    assert s[|x|] == c;
    assert s[..|x|] == x;
  }

  lemma ReplaceAt(x: string, a: char, b: char, y: string)
    requires a !in x
    ensures ReplaceFirst(x + [a] + y, a, b) == x + [b] + y
  {
    SplitAt(x, a, y);
    var s := x + [a] + y;
    assert s[..|x|] == x && s[|x| + 1..] == y;
  }
}
