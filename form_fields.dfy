/** The JavaScript idioms the entry and task forms share on text fields:
    `a || b`, `s || undefined` and `s.split('T')[0]`. */
module FormFields {
  import opened Wrappers

  /** `a || b` on texts: `b` when `a` is empty. */
  function OrElse(a: string, b: string): (r: string)
    ensures a != "" ==> r == a
    ensures a == "" ==> r == b
    ensures r == "" <==> a == "" && b == ""
  {
    if a != "" then a else b
  }

  /** `s || undefined` on a text: absent exactly for the empty text. */
  function NonEmpty(s: string): (r: Option<string>)
    ensures r.None? <==> s == ""
    ensures r.Some? ==> r.value == s
  {
    if s == "" then None else Some(s)
  }

  /** `s.split('T')[0]`: the text before the first `T`. */
  function DatePart(s: string): (r: string)
    ensures r <= s && 'T' !in r
    ensures |r| < |s| ==> s[|r|] == 'T'
  {
    if s == [] || s[0] == 'T' then [] else [s[0]] + DatePart(s[1..])
  }

  /** A date without a `T` is its own date part. */
  lemma {:induction false} DatePartOfDate(s: string)
    requires 'T' !in s
    ensures DatePart(s) == s
  {
    if s != [] {
      assert 'T' !in s[1..] by { assert forall c :: c in s[1..] ==> c in s; }
      DatePartOfDate(s[1..]);
    }
  }

  /** The date part of an ISO timestamp `date + "T" + time` is its date. */
  lemma {:induction false} DatePartOfTimestamp(date: string, time: string)
    requires 'T' !in date
    ensures DatePart(date + "T" + time) == date
  {
    if date != [] {
      assert (date + "T" + time)[1..] == date[1..] + "T" + time;
      assert 'T' !in date[1..] by { assert forall c :: c in date[1..] ==> c in date; }
      DatePartOfTimestamp(date[1..], time);
    }
  }
}
