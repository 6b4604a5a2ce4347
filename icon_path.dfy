/**
 * `convertIconPath` of the UI controller: the game asset path of an icon
 * becomes a URL on the Community Dragon CDN. The two `replace` calls with
 * anchored regular expressions are a prefix and a suffix rewrite; the
 * lowercasing is modelled on ASCII letters.
 */
module IconPath {

  /** `CDN_BASE` */
  const CdnBase: string := "https://raw.communitydragon.org/latest/game/"

  predicate StartsWith(s: string, prefix: string) {
    |prefix| <= |s| && s[..|prefix|] == prefix
  }

  predicate EndsWith(s: string, suffix: string) {
    |suffix| <= |s| && s[|s| - |suffix|..] == suffix
  }

  /** `s.replace(/^from/, to)`: only a match at the very start is replaced. */
  function ReplaceLeading(s: string, from: string, to: string): (r: string)
    ensures StartsWith(s, from) ==> StartsWith(r, to) && r[|to|..] == s[|from|..]
    ensures !StartsWith(s, from) ==> r == s
    ensures |from| == |to| ==> |r| == |s|
  {
    if StartsWith(s, from) then to + s[|from|..] else s
  }

  /** `s.replace(/from$/, to)`: only a match at the very end is replaced. */
  function ReplaceTrailing(s: string, from: string, to: string): (r: string)
    ensures EndsWith(s, from) ==> EndsWith(r, to) && r[..|r| - |to|] == s[..|s| - |from|]
    ensures !EndsWith(s, from) ==> r == s
    ensures |from| == |to| ==> |r| == |s|
  {
    if EndsWith(s, from) then s[..|s| - |from|] + to else s
  }

  predicate IsUpper(c: char) {
    'A' <= c <= 'Z'
  }

  function LowerChar(c: char): (l: char)
    ensures !IsUpper(l)
    ensures IsUpper(c) ==> l as int == c as int + 32
    ensures !IsUpper(c) ==> l == c
  {
    if IsUpper(c) then (c as int + 32) as char else c
  }

  /** `s.toLowerCase()` on ASCII letters. */
  function Lower(s: string): (r: string)
    ensures |r| == |s|
    ensures forall i :: 0 <= i < |s| ==> r[i] == LowerChar(s[i])
  {
    seq(|s|, i requires 0 <= i < |s| => LowerChar(s[i]))
  }

  /** The asset path with its prefix and suffix rewritten, lowercased. */
  function CleanPath(path: string): string {
    Lower(
      ReplaceTrailing(
        ReplaceTrailing(
          ReplaceLeading(path, "ASSETS/", "assets/"),
          ".tex", ".png"),
        ".TFT_Set16.tex", ".png"))
  }

  /** The URL for an asset path. */
  function ConvertIconPath(path: string): string {
    CdnBase + CleanPath(path)
  }

  lemma PrefixedEndsWith(a: string, s: string, suffix: string)
    requires EndsWith(s, suffix)
    ensures EndsWith(a + s, suffix)
  {
    assert (a + s)[|a + s| - |suffix|..] == s[|s| - |suffix|..];
  }

  /**
   * Every URL starts with the CDN base, and since both rewrites swap
   * strings of equal length and lowercasing keeps the length, the rest is
   * exactly as long as the path.
   */
  lemma ConvertKeepsBaseAndLength(path: string)
    ensures StartsWith(ConvertIconPath(path), CdnBase)
    ensures |ConvertIconPath(path)| == |CdnBase| + |path|
  {
    CleanWithoutSet16Rewrite(path);
    var url := ConvertIconPath(path);
    assert url[..|CdnBase|] == CdnBase;
  }

  /** After the `.tex` rewrite no string ends in `.tex`, so the `.TFT_Set16.tex` rewrite never fires. */
  lemma Set16RewriteNeverFires(s: string)
    ensures !EndsWith(ReplaceTrailing(s, ".tex", ".png"), ".TFT_Set16.tex")
  {
    var r := ReplaceTrailing(s, ".tex", ".png");
    if |r| >= 14 {
      assert r[|r| - 14..][10..] == r[|r| - 4..];
    }
  }

  lemma CleanWithoutSet16Rewrite(path: string)
    ensures CleanPath(path) == Lower(ReplaceTrailing(ReplaceLeading(path, "ASSETS/", "assets/"), ".tex", ".png"))
  {
    Set16RewriteNeverFires(ReplaceLeading(path, "ASSETS/", "assets/"));
  }

  /** Dropping the `.TFT_Set16.tex` rewrite gives the same URL for every path. */
  lemma ConvertWithoutSet16Rewrite(path: string)
    ensures ConvertIconPath(path)
      == CdnBase + Lower(ReplaceTrailing(ReplaceLeading(path, "ASSETS/", "assets/"), ".tex", ".png"))
  {
    CleanWithoutSet16Rewrite(path);
  }

  /** Nothing after the CDN base is an upper-case ASCII letter. */
  lemma ConvertHasNoUppercase(path: string)
    ensures forall i :: |CdnBase| <= i < |ConvertIconPath(path)| ==> !IsUpper(ConvertIconPath(path)[i])
  {
    var clean := CleanPath(path);
    forall i | |CdnBase| <= i < |ConvertIconPath(path)| ensures !IsUpper(ConvertIconPath(path)[i]) {
      assert ConvertIconPath(path)[i] == clean[i - |CdnBase|];
    }
  }

  /** A path with neither the `ASSETS/` prefix nor the `.tex` suffix is only lowercased. */
  lemma PlainPathOnlyLowercased(path: string)
    requires !StartsWith(path, "ASSETS/") && !EndsWith(path, ".tex")
    ensures ConvertIconPath(path) == CdnBase + Lower(path)
  {
    CleanWithoutSet16Rewrite(path);
  }

  /** The `.tex` rewrite cannot reach into a leading `assets/`, which holds no dot. */
  lemma TrailingKeepsLeading(s: string)
    requires StartsWith(s, "assets/")
    ensures StartsWith(ReplaceTrailing(s, ".tex", ".png"), "assets/")
  {
    var n := |s|;
    if EndsWith(s, ".tex") && n < 11 {
      assert s[n - 4] == ".tex"[0];
      assert s[n - 4] == "assets/"[n - 4];
    }
    if EndsWith(s, ".tex") && n >= 11 {
      assert ReplaceTrailing(s, ".tex", ".png")[..7] == s[..n - 4][..7];
    }
  }

  /** A leading `ASSETS/` arrives as `assets/`, whatever the rest of the path. */
  lemma ConvertRewritesPrefix(path: string)
    requires StartsWith(path, "ASSETS/")
    ensures |ConvertIconPath(path)| == |CdnBase| + |path|
    ensures ConvertIconPath(path)[|CdnBase|..|CdnBase| + 7] == "assets/"
  {
    ConvertKeepsBaseAndLength(path);
    CleanWithoutSet16Rewrite(path);
    var afterPrefix := ReplaceLeading(path, "ASSETS/", "assets/");
    var afterSuffix := ReplaceTrailing(afterPrefix, ".tex", ".png");
    TrailingKeepsLeading(afterPrefix);
    var clean := CleanPath(path);
    forall i | 0 <= i < 7 ensures clean[i] == "assets/"[i] {
      assert afterSuffix[i] == "assets/"[i];
    }
    assert ConvertIconPath(path)[|CdnBase|..|CdnBase| + 7] == clean[..7];
  }

  /** A trailing `.tex` cannot overlap a leading `ASSETS/`, which holds no dot. */
  lemma LeadingKeepsTrailing(path: string)
    requires EndsWith(path, ".tex")
    ensures EndsWith(ReplaceLeading(path, "ASSETS/", "assets/"), ".tex")
  {
    var n := |path|;
    if StartsWith(path, "ASSETS/") {
      if n < 11 {
        assert path[n - 4] == ".tex"[0];
        assert path[n - 4] == "ASSETS/"[n - 4];
      } else {
        assert ReplaceLeading(path, "ASSETS/", "assets/")[n - 4..] == path[n - 4..];
      }
    }
  }

  lemma LowerKeepsPng(s: string)
    requires EndsWith(s, ".png")
    ensures EndsWith(Lower(s), ".png")
  {
    var n := |s|;
    var l := Lower(s);
    assert l[n - 4] == LowerChar(s[n - 4]) && s[n - 4] == '.';
    assert l[n - 3] == LowerChar(s[n - 3]) && s[n - 3] == 'p';
    assert l[n - 2] == LowerChar(s[n - 2]) && s[n - 2] == 'n';
    assert l[n - 1] == LowerChar(s[n - 1]) && s[n - 1] == 'g';
  }

  /** A trailing `.tex` arrives as `.png`. */
  lemma ConvertRewritesSuffix(path: string)
    requires EndsWith(path, ".tex")
    ensures EndsWith(ConvertIconPath(path), ".png")
  {
    CleanWithoutSet16Rewrite(path);
    LeadingKeepsTrailing(path);
    LowerKeepsPng(ReplaceTrailing(ReplaceLeading(path, "ASSETS/", "assets/"), ".tex", ".png"));
    PrefixedEndsWith(CdnBase, CleanPath(path), ".png");
  }

  /** Between the prefix and the suffix, the URL is the path lowercased. */
  lemma ConvertLowercasesMiddle(path: string)
    ensures |ConvertIconPath(path)| == |CdnBase| + |path|
    ensures forall i :: 7 <= i < |path| - 4 ==> ConvertIconPath(path)[|CdnBase| + i] == LowerChar(path[i])
  {
    ConvertKeepsBaseAndLength(path);
    CleanWithoutSet16Rewrite(path);
    var afterPrefix := ReplaceLeading(path, "ASSETS/", "assets/");
    var afterSuffix := ReplaceTrailing(afterPrefix, ".tex", ".png");
    var clean := CleanPath(path);
    forall i | 7 <= i < |path| - 4 ensures ConvertIconPath(path)[|CdnBase| + i] == LowerChar(path[i]) {
      assert afterPrefix[i] == path[i];
      assert afterSuffix[i] == afterPrefix[i];
      assert ConvertIconPath(path)[|CdnBase| + i] == clean[i];
    }
  }

  /** An upper-case asset path: the prefix and the suffix are swapped and the rest lowercased. */
  lemma IconExample()
    ensures ConvertIconPath("ASSETS/Ab.tex") == CdnBase + "assets/ab.png"
  {
    var path := "ASSETS/Ab.tex";
    assert path[..7] == "ASSETS/";
    var a := ReplaceLeading(path, "ASSETS/", "assets/");
    assert a == "assets/" + "Ab.tex";
    assert a[|a| - 4..] == ".tex";
    var b := ReplaceTrailing(a, ".tex", ".png");
    assert b == "assets/Ab" + ".png";
    CleanWithoutSet16Rewrite(path);
    assert Lower(b) == "assets/ab.png";
    assert CleanPath(path) == "assets/ab.png";
  }
}
