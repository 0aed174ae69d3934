/** The string operations the proxy relies on: Python's `str.replace` and
    `"".join`, with the substring test used to state their properties. */
module Text {

  /** `pat` is a prefix of `s`. */
  predicate StartsWith(s: string, pat: string) {
    |pat| <= |s| && s[..|pat|] == pat
  }

  /** `pat` occurs somewhere in `s`. */
  predicate Contains(s: string, pat: string)
    decreases |s|
  {
    StartsWith(s, pat) || (|s| > 0 && Contains(s[1..], pat))
  }

  /** `s.replace(pat, rep)`: scanning left to right, every non-overlapping
      occurrence of `pat` is replaced by `rep`. */
  function Replace(s: string, pat: string, rep: string): (r: string)
    requires |pat| > 0
    ensures !Contains(s, pat) ==> r == s
    ensures rep == "" ==> |r| <= |s|
    decreases |s|
  {
    if StartsWith(s, pat) then rep + Replace(s[|pat|..], pat, rep)
    else if s == [] then []
    else
      assert s == [s[0]] + s[1..];
      [s[0]] + Replace(s[1..], pat, rep)
  }

  /** A leading occurrence is replaced and the scan resumes right after it. */
  lemma ReplaceLeading(a: string, pat: string, rep: string)
    requires |pat| > 0
    ensures Replace(pat + a, pat, rep) == rep + Replace(a, pat, rep)
  {
  }

  /** Where no occurrence starts at the front, the first character is kept
      and the scan moves on by one. */
  lemma ReplaceSkip(c: char, a: string, pat: string, rep: string)
    requires |pat| > 0 && !StartsWith([c] + a, pat)
    ensures Replace([c] + a, pat, rep) == [c] + Replace(a, pat, rep)
  {
  }

  /** Two leading characters at which no occurrence starts are both kept. */
  lemma ReplaceSkipTwo(x: char, y: char, rest: string, pat: string)
    requires |pat| > 0
    requires !StartsWith([x, y] + rest, pat) && !StartsWith([y] + rest, pat)
    ensures Replace([x, y] + rest, pat, "") == [x, y] + Replace(rest, pat, "")
  {
    assert [x, y] + rest == [x] + ([y] + rest);
    ReplaceSkip(x, [y] + rest, pat, "");
    ReplaceSkip(y, rest, pat, "");
  }

  /** A first character that cannot begin `pat` adds no occurrence. */
  lemma ContainsAfterChar(c: char, a: string, pat: string)
    requires |pat| > 0 && c != pat[0]
    ensures Contains([c] + a, pat) <==> Contains(a, pat)
  {
  }

  /** A prefix none of whose characters can begin `pat` adds no occurrence. */
  lemma {:induction false} ContainsAfterPrefix(p: string, a: string, pat: string)
    requires |pat| > 0
    requires forall i :: 0 <= i < |p| ==> p[i] != pat[0]
    ensures Contains(p + a, pat) <==> Contains(a, pat)
  {
    if p == [] {
      assert p + a == a;
    } else {
      ContainsAfterPrefix(p[1..], a, pat);
      assert p + a == [p[0]] + (p[1..] + a);
      ContainsAfterChar(p[0], p[1..] + a, pat);
    }
  }

  /** `"https://"` does not begin an occurrence of `"http://"`, and no later
      position of it can begin one either, so prefixing it changes nothing. */
  lemma HttpsPrefixAddsNoHttp(a: string)
    ensures Contains("https://" + a, "http://") <==> Contains(a, "http://")
  {
    var pat, s := "http://", "https://" + a;
    assert s[..|pat|] != pat by {
      assert s[..|pat|][4] == s[4] == 's';
    }
    assert s[1..] == "ttps://" + a;
    ContainsAfterPrefix("ttps://", a, pat);
  }

  /** `"".join(parts)`. */
  function Join(parts: seq<string>): string {
    if parts == [] then "" else parts[0] + Join(parts[1..])
  }

  /** Joining distributes over concatenation of the part lists. */
  lemma {:induction false} JoinAppend(a: seq<string>, b: seq<string>)
    ensures Join(a + b) == Join(a) + Join(b)
  {
    if a == [] {
      assert a + b == b;
    } else {
      assert (a + b)[1..] == a[1..] + b;
      JoinAppend(a[1..], b);
    }
  }

  /** Every part sits in the joined string right after the parts before it. */
  lemma JoinAt(parts: seq<string>, i: nat)
    requires i < |parts|
    ensures Join(parts) == Join(parts[..i]) + parts[i] + Join(parts[i + 1..])
  {
    var rest := parts[i..];
    assert parts == parts[..i] + rest;
    JoinAppend(parts[..i], rest);
    assert rest[0] == parts[i] && rest[1..] == parts[i + 1..];
  }
}
