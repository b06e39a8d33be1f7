/** The regular expression `/district\s+(\d+)/i` applied with
    `String.prototype.match` (api/lookup.js:53), as a leftmost,
    backtracking search. Without the `u` flag, `i` folds only ASCII letters:
    a non-ASCII character never matches an ASCII one. */
module NamePattern {
  import opened Wrappers
  import opened JsText

  const Keyword: string := "district"

  /** `c` matches the lower-case letter `k` ignoring ASCII case. */
  predicate FoldsTo(c: char, k: char) {
    c == k || (c as int) + 32 == k as int
  }

  /** The literal part of the pattern matches at `i`. */
  predicate KeywordAt(s: string, i: nat) {
    i + |Keyword| <= |s| && forall k :: 0 <= k < |Keyword| ==> FoldsTo(s[i + k], Keyword[k])
  }

  /** One way the pattern matches at `i`: the keyword, `w` spaces for `\s+`,
      then `d` digits for `(\d+)`. This is the pattern's language, before
      any choice the engine makes among the ways. */
  ghost predicate PathAt(s: string, i: nat, w: nat, d: nat) {
    && KeywordAt(s, i) && w >= 1 && d >= 1 && i + |Keyword| + w + d <= |s|
    && (forall k :: i + |Keyword| <= k < i + |Keyword| + w ==> IsSpace(s[k]))
    && (forall k :: i + |Keyword| + w <= k < i + |Keyword| + w + d ==> IsDigit(s[k]))
  }

  /** The capture group `m[1]` of a match at `i`, as the engine finds it:
      `\s+` and `\d+` both take as much as they can. */
  function CaptureAt(s: string, i: nat): (r: Option<string>)
    requires i <= |s|
    ensures r.Some? ==> r.value != [] && AllDigitsIn(r.value, 10)
  {
    if !KeywordAt(s, i) then None
    else
      var j := i + |Keyword|;
      var w := SpaceRun(s, j);
      var d := DigitRun(s, j + w);
      if w >= 1 && d >= 1 then
        Some(s[j + w..j + w + d])
      else None
  }

  /** Greedy is complete and its capture is the longest: the engine finds a
      match at `i` exactly when the pattern has one there, the capture is
      the digits of one such match, and it extends every match's digits. */
  lemma CaptureIsGreedy(s: string, i: nat)
    requires i <= |s|
    ensures CaptureAt(s, i).Some? <==> exists w: nat, d: nat :: PathAt(s, i, w, d)
    ensures CaptureAt(s, i).Some? ==>
              exists w: nat :: PathAt(s, i, w, |CaptureAt(s, i).value|)
                          && CaptureAt(s, i).value == s[i + |Keyword| + w..i + |Keyword| + w + |CaptureAt(s, i).value|]
    ensures forall w: nat, d: nat :: PathAt(s, i, w, d) ==> CaptureAt(s, i).Some? && d <= |CaptureAt(s, i).value|
  {
    if CaptureAt(s, i).Some? {
      CaptureIsSound(s, i);
    }
    forall w: nat, d: nat | PathAt(s, i, w, d)
      ensures CaptureAt(s, i).Some? && d <= |CaptureAt(s, i).value|
    {
      CaptureIsLongest(s, i, w, d);
    }
  }

  /** A capture comes from a way of matching: the keyword, some spaces,
      then exactly the captured digits. */
  lemma CaptureIsSound(s: string, i: nat)
    requires i <= |s| && CaptureAt(s, i).Some?
    ensures var c := CaptureAt(s, i).value;
            exists w: nat :: PathAt(s, i, w, |c|) && c == s[i + |Keyword| + w..i + |Keyword| + w + |c|]
  {
    var j := i + |Keyword|;
    var w := SpaceRun(s, j);
    var d := DigitRun(s, j + w);
    assert PathAt(s, i, w, d);
  }

  /** Every way of matching at `i` is found by the engine, and spends no
      more digits than the capture holds. */
  lemma CaptureIsLongest(s: string, i: nat, w: nat, d: nat)
    requires i <= |s| && PathAt(s, i, w, d)
    ensures CaptureAt(s, i).Some? && d <= |CaptureAt(s, i).value|
  {
    var j := i + |Keyword|;
    SpaceRunBounds(s, j, w);
    DigitRunBound(s, j + w, d);
  }

  /** The capture a match starting at each position would give. */
  function Captures(s: string): (cs: seq<Option<string>>)
    ensures |cs| == |s| + 1
    ensures forall j :: 0 <= j <= |s| ==> cs[j] == CaptureAt(s, j)
  {
    seq(|s| + 1, j requires 0 <= j <= |s| => CaptureAt(s, j))
  }

  /** `m.index` of the match `s.match(pattern)` finds: the leftmost position
      where the pattern matches, and `|s| + 1` when it matches nowhere. */
  function MatchStart(s: string): (k: nat)
    ensures k <= |s| + 1
    ensures forall j :: 0 <= j < k && j <= |s| ==> CaptureAt(s, j).None?
    ensures k <= |s| ==> CaptureAt(s, k).Some?
  {
    FirstSomeIndex(Captures(s), 0)
  }

  /** `s.match(pattern)`, reduced to its capture group `m[1]`, or `None`
      where the source gets `null`. */
  function Match(s: string): (r: Option<string>)
    ensures r.Some? ==> r.value != [] && AllDigitsIn(r.value, 10)
    ensures r.None? <==> forall j :: 0 <= j <= |s| ==> CaptureAt(s, j).None?
  {
    var k := MatchStart(s);
    if k <= |s| then CaptureAt(s, k) else None
  }

  /** The match is the leftmost one: a capture at `i` with none before it is
      what `match` returns. */
  lemma MatchIsLeftmost(s: string, i: nat)
    requires i <= |s| && CaptureAt(s, i).Some?
    requires forall j :: 0 <= j < i ==> CaptureAt(s, j).None?
    ensures Match(s) == CaptureAt(s, i)
  {
    FirstSomeIsFirst(Captures(s), i);
  }

  /** The label the boundary files use: "State House District 114" gives
      the capture "114". */
  lemma MatchesHouseLabel()
    ensures Match("State House District 114") == Some("114")
  {
    var s := "State House District 114";
    NoKeywordBefore(s);
    LabelCapture(s);
    MatchIsLeftmost(s, 12);
  }

  lemma NoKeywordBefore(s: string)
    requires s == "State House District 114"
    ensures forall j :: 0 <= j < 12 ==> CaptureAt(s, j).None?
  {
    var before := "State House ";
    assert s == before + "District 114";
    assert 'd' !in before && 'D' !in before;
    forall j | 0 <= j < 12 ensures CaptureAt(s, j).None? {
      assert s[j] == before[j] && before[j] in before;
      assert !FoldsTo(s[j], Keyword[0]);
    }
  }

  lemma LabelCapture(s: string)
    requires s == "State House District 114"
    ensures CaptureAt(s, 12) == Some("114")
  {
    assert KeywordAt(s, 12);
    assert SpaceRun(s, 20) == 1;
    assert DigitRun(s, 21) == 3;
    assert s[21..24] == "114";
  }
}
