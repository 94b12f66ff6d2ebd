/**
  Asset selection: the first URL of a release that the configured regular
  expression matches.
 */
module Assets {

  /** `i` is the position of the first element of `urls` that `matches` accepts. */
  predicate FirstMatchAt(urls: seq<string>, matches: string -> bool, i: int) {
    && 0 <= i < |urls|
    && matches(urls[i])
    && forall j :: 0 <= j < i ==> !matches(urls[j])
  }

  /**
    Scan `assets` in order and return the first one `matches` accepts, or the
    empty string when none does. `matches` is the compiled pattern's
    MatchString.
   */
  method FindAsset(assets: seq<string>, matches: string -> bool) returns (asset: string)
    ensures (forall i :: 0 <= i < |assets| ==> !matches(assets[i])) ==> asset == ""
    ensures (exists i :: 0 <= i < |assets| && matches(assets[i])) ==>
      exists i :: FirstMatchAt(assets, matches, i) && asset == assets[i]
  {
    for i := 0 to |assets|
      invariant forall j :: 0 <= j < i ==> !matches(assets[j])
    {
      if matches(assets[i]) {
        return assets[i];
      }
    }
    return "";
  }

  /** There is at most one first match. */
  lemma FirstMatchUnique(urls: seq<string>, matches: string -> bool, i: int, j: int)
    requires FirstMatchAt(urls, matches, i) && FirstMatchAt(urls, matches, j)
    ensures i == j
  {
  }

  /**
    The regular expressions the tool is configured with: a literal, with an
    optional `^` in front and an optional `$` at the end.
   */
  datatype LiteralRegex = LiteralRegex(anchoredStart: bool, text: string, anchoredEnd: bool)

  predicate OccursAt(text: string, s: string, i: int) {
    0 <= i <= |s| - |text| && s[i..i + |text|] == text
  }

  /**
    RE2's MatchString: an unanchored search for a match anywhere in `s`;
    `^` pins the match to the start, `$` (without the multi-line flag) to the end.
   */
  predicate MatchString(re: LiteralRegex, s: string) {
    exists i | 0 <= i <= |s| - |re.text| ::
      && OccursAt(re.text, s, i)
      && (re.anchoredStart ==> i == 0)
      && (re.anchoredEnd ==> i + |re.text| == |s|)
  }

  predicate EndsWith(s: string, suffix: string) {
    |suffix| <= |s| && s[|s| - |suffix|..] == suffix
  }

  /** The pattern `/ocm-linux-amd64$` that selects the OCM command-line binary. */
  const OcmPattern := LiteralRegex(false, "/ocm-linux-amd64", true)

  /** An end-anchored literal matches exactly the strings that end with it. */
  lemma EndAnchoredMatchIsSuffix(text: string, s: string)
    ensures MatchString(LiteralRegex(false, text, true), s) <==> EndsWith(s, text)
  {
    if EndsWith(s, text) {
      assert OccursAt(text, s, |s| - |text|);
    }
  }

  /** Without the `$`, a literal also matches inside longer names, e.g. a checksum file next to the binary. */
  lemma UnanchoredMatchesMore(text: string, s: string)
    ensures MatchString(LiteralRegex(false, text, false), s + text + ".sha256")
  {
    var t := s + text + ".sha256";
    assert t[|s|..|s| + |text|] == text;
    assert OccursAt(text, t, |s|);
  }
}
