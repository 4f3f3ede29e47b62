/**
 * The string logic of the asset list: which directory entries count as images
 * (the file-name filter of the directory loader) and which format name an asset
 * is written back in (the text after its last dot).
 */
module AssetNames {
  import opened Wrappers

  /** The suffixes the directory filter accepts, after lower-casing. */
  const Extensions: set<string> := {"png", "jpg", "jpeg", "bmp", "gif"}

  /** ASCII lower-casing of one character; every other character is unchanged. */
  function LowerChar(c: char): char {
    if 'A' <= c <= 'Z' then (c as int + 32) as char else c
  }

  /** ASCII lower-casing of a name, character by character. */
  function Lower(s: string): (r: string)
    ensures |r| == |s|
    ensures forall i :: 0 <= i < |s| ==> r[i] == LowerChar(s[i])
  {
    seq(|s|, i requires 0 <= i < |s| => LowerChar(s[i]))
  }

  /** The characters a regular-expression `.` does not match: \n, \r, U+0085, U+2028, U+2029. */
  predicate IsLineTerminator(c: char) {
    c == '\n' || c == '\r' || c as int == 0x85 || c as int == 0x2028 || c as int == 0x2029
  }

  predicate NoLineTerminator(s: string) {
    forall i :: 0 <= i < |s| ==> !IsLineTerminator(s[i])
  }

  /** The index of the last occurrence of `c` in `s`, or -1 when there is none. */
  function LastIndexOf(s: string, c: char): (r: int)
    ensures -1 <= r < |s|
    ensures r == -1 <==> c !in s
    ensures 0 <= r ==> s[r] == c && c !in s[r + 1..]
  {
    if |s| == 0 then -1
    else if s[|s| - 1] == c then |s| - 1
    else LastIndexOf(s[..|s| - 1], c)
  }

  /**
   * The filter of the directory loader: the lower-cased name is matched as a
   * whole against `.*\.(png|jpg|jpeg|bmp|gif)$`. Since no extension contains a
   * dot, the dot of the match is the last dot of the name.
   */
  predicate IsImageName(name: string)
  {
    var s := Lower(name);
    var dot := LastIndexOf(s, '.');
    0 <= dot && s[dot + 1..] in Extensions && NoLineTerminator(s[..dot])
  }

  /** The last occurrence is at or after any occurrence. */
  lemma LastIndexOfAtLeast(s: string, c: char, k: nat)
    requires k < |s| && s[k] == c
    ensures LastIndexOf(s, c) >= k
  {
  }

  /** With no occurrence after k, the last occurrence is at or before k. */
  lemma LastIndexOfAtMost(s: string, c: char, k: int)
    requires -1 <= k < |s|
    requires forall j :: k < j < |s| ==> s[j] != c
    ensures LastIndexOf(s, c) <= k
  {
  }

  /** `s` ends in a dot followed by `ext`. */
  predicate EndsWithExtension(s: string, ext: string) {
    |s| > |ext| && s[|s| - |ext| - 1] == '.' && s[|s| - |ext|..] == ext
  }

  /**
   * The regular expression read literally: some extension follows a dot at the
   * end of the lower-cased name, and what comes before that dot contains no
   * line terminator (the `.*`).
   */
  ghost predicate MatchesImagePattern(name: string) {
    exists ext :: MatchesWithExtension(Lower(name), ext)
  }

  /** The pattern matches the lower-cased name `s` with `ext` as its alternative. */
  predicate MatchesWithExtension(s: string, ext: string) {
    ext in Extensions && EndsWithExtension(s, ext) && NoLineTerminator(s[..|s| - |ext| - 1])
  }

  /** The format name an asset is written in: everything after its last dot, or the whole name. */
  function FormatName(name: string): (r: string)
    ensures '.' !in r
    ensures |r| <= |name| && name[|name| - |r|..] == r
    ensures '.' in name ==> |r| < |name| && name[|name| - |r| - 1] == '.'
    ensures '.' !in name ==> r == name
  {
    name[LastIndexOf(name, '.') + 1..]
  }

  /** The entries of a listing a filename filter accepts, in listing order (File.list with a filter). */
  function Filter(names: seq<string>, accept: string -> bool): (r: seq<string>)
    ensures |r| <= |names|
  {
    if names == [] then []
    else (if accept(names[0]) then [names[0]] else []) + Filter(names[1..], accept)
  }

  lemma ExtensionsHaveNoDot(ext: string)
    requires ext in Extensions
    ensures '.' !in ext
  {
  }

  /** A name the filter accepts matches the regular expression. */
  lemma ImageNameMatchesPattern(name: string)
    requires IsImageName(name)
    ensures MatchesImagePattern(name)
  {
    var s := Lower(name);
    var dot := LastIndexOf(s, '.');
    var ext := s[dot + 1..];
    assert s[|s| - |ext|..] == ext;
    assert EndsWithExtension(s, ext);
    assert s[..|s| - |ext| - 1] == s[..dot];
    assert MatchesWithExtension(s, ext);
  }

  /** A name ending in a dot and a listed extension, with no line terminator before that dot, is accepted. */
  lemma ExtensionIsImageName(name: string, ext: string)
    requires MatchesWithExtension(Lower(name), ext)
    ensures IsImageName(name)
  {
    var s := Lower(name);
    var k := |s| - |ext| - 1;
    ExtensionsHaveNoDot(ext);
    LastIndexOfAtLeast(s, '.', k);
    forall j | k < j < |s| ensures s[j] != '.' {
      assert s[j] == ext[j - k - 1];
    }
    LastIndexOfAtMost(s, '.', k);
    assert LastIndexOf(s, '.') == k;
    assert s[k + 1..] == ext;
  }

  /** A name the regular expression matches is accepted by the filter. */
  lemma PatternIsImageName(name: string)
    requires MatchesImagePattern(name)
    ensures IsImageName(name)
  {
    var ext :| MatchesWithExtension(Lower(name), ext);
    ExtensionIsImageName(name, ext);
  }

  /** The filter accepts exactly the names the regular expression matches. */
  lemma IsImageNameIffPattern(name: string)
    ensures IsImageName(name) <==> MatchesImagePattern(name)
  {
    if IsImageName(name) {
      ImageNameMatchesPattern(name);
    }
    if MatchesImagePattern(name) {
      PatternIsImageName(name);
    }
  }

  /** The dot is required: a name without one is never listed. */
  lemma NoDotRejected(name: string)
    requires '.' !in name
    ensures !IsImageName(name)
  {
    LastIndexOfLower(name);
  }

  /** The dot before a dot-free `ext` is the last dot of `stem + "." + ext`. */
  lemma LastDotBeforeExtension(stem: string, ext: string)
    requires '.' !in ext
    ensures LastIndexOf(stem + "." + ext, '.') == |stem|
  {
    var name := stem + "." + ext;
    var k := |stem|;
    LastIndexOfAtLeast(name, '.', k);
    forall j | k < j < |name| ensures name[j] != '.' {
      assert name[j] == ext[j - k - 1];
    }
    LastIndexOfAtMost(name, '.', k);
  }

  /**
   * A name whose last dot separates `stem` from `ext` is listed iff `ext`
   * lower-cases to one of the five extensions and `stem` holds no line terminator.
   */
  lemma ImageNameSplit(stem: string, ext: string)
    requires '.' !in ext
    ensures IsImageName(stem + "." + ext) <==> Lower(ext) in Extensions && NoLineTerminator(Lower(stem))
  {
    var name := stem + "." + ext;
    LastDotBeforeExtension(stem, ext);
    assert name[|stem| + 1..] == ext && name[..|stem|] == stem;
    ImageNameParts(name);
  }

  /** Upper case is accepted: "A.PNG" is listed. */
  lemma UpperCaseAccepted()
    ensures IsImageName("A.PNG")
  {
    assert "A.PNG" == "A" + "." + "PNG";
    assert Lower("PNG") == "png";
    ImageNameSplit("A", "PNG");
  }

  /** A bare extension is accepted: ".gif" is listed. */
  lemma BareExtensionAccepted()
    ensures IsImageName(".gif")
  {
    assert ".gif" == "" + "." + "gif";
    assert Lower("gif") == "gif";
    ImageNameSplit("", "gif");
  }

  /** The extension must come last: "a.png.txt" is not listed. */
  lemma InnerExtensionRejected()
    ensures !IsImageName("a.png.txt")
  {
    assert "a.png.txt" == "a.png" + "." + "txt";
    assert Lower("txt") == "txt";
    ImageNameSplit("a.png", "txt");
  }

  /** The dot is required: "png" is not listed. */
  lemma MissingDotRejected()
    ensures !IsImageName("png")
  {
    NoDotRejected("png");
  }

  /** A line terminator before the dot defeats the `.*` of the pattern: "a\n.png" is not listed. */
  lemma LineTerminatorRejected()
    ensures !IsImageName("a\n.png")
  {
    assert "a\n.png" == "a\n" + "." + "png";
    assert Lower("a\n")[1] == '\n';
    ImageNameSplit("a\n", "png");
  }

  /** Lower-casing never creates or removes a dot, so it keeps the position of the last one. */
  lemma {:induction false} LastIndexOfLower(s: string)
    ensures LastIndexOf(Lower(s), '.') == LastIndexOf(s, '.')
  {
    if |s| > 0 {
      assert Lower(s)[..|s| - 1] == Lower(s[..|s| - 1]);
      LastIndexOfLower(s[..|s| - 1]);
    }
  }

  lemma LowerSuffix(s: string, i: nat)
    requires i <= |s|
    ensures Lower(s[i..]) == Lower(s)[i..]
  {
  }

  lemma LowerPrefix(s: string, i: nat)
    requires i <= |s|
    ensures Lower(s[..i]) == Lower(s)[..i]
  {
  }

  /**
   * The filter read on the name as given: it has a last dot, the text after
   * that dot lower-cases to a listed extension, and the text before it holds
   * no line terminator.
   */
  lemma ImageNameParts(name: string)
    ensures IsImageName(name) <==>
      var dot := LastIndexOf(name, '.');
      0 <= dot && Lower(name[dot + 1..]) in Extensions && NoLineTerminator(Lower(name[..dot]))
  {
    LastIndexOfLower(name);
    var dot := LastIndexOf(name, '.');
    if 0 <= dot {
      LowerSuffix(name, dot + 1);
      LowerPrefix(name, dot);
    }
  }

  /** Every listed asset is written in a format whose lower-cased name is one of the five extensions. */
  lemma ListedFormatName(name: string)
    requires IsImageName(name)
    ensures Lower(FormatName(name)) in Extensions
  {
    ImageNameParts(name);
  }

  /** An entry survives a filter iff it is in the listing and the filter accepts it. */
  lemma {:induction false} FilterMembership(names: seq<string>, accept: string -> bool, x: string)
    ensures x in Filter(names, accept) <==> x in names && accept(x)
  {
    if names != [] {
      FilterMembership(names[1..], accept, x);
      assert names == [names[0]] + names[1..];
    }
  }

  /** Filtering a concatenated listing filters each part and keeps their order. */
  lemma {:induction false} FilterAppend(a: seq<string>, b: seq<string>, accept: string -> bool)
    ensures Filter(a + b, accept) == Filter(a, accept) + Filter(b, accept)
  {
    if a != [] {
      assert (a + b)[0] == a[0];
      assert (a + b)[1..] == a[1..] + b;
      FilterAppend(a[1..], b, accept);
    } else {
      assert a + b == b;
    }
  }

  /** Every entry a filter keeps is accepted by it. */
  lemma {:induction false} FilterAccepted(names: seq<string>, accept: string -> bool)
    ensures forall i :: 0 <= i < |Filter(names, accept)| ==> accept(Filter(names, accept)[i])
  {
    if names != [] {
      FilterAccepted(names[1..], accept);
    }
  }

  /** A filter drops only rejected entries: a listing it accepts throughout is kept whole. */
  lemma {:induction false} FilterKeepsAccepted(names: seq<string>, accept: string -> bool)
    ensures Filter(names, accept) == names <==> forall i :: 0 <= i < |names| ==> accept(names[i])
  {
    if names != [] {
      FilterKeepsAccepted(names[1..], accept);
      if !accept(names[0]) {
        assert |Filter(names, accept)| < |names|;
      }
    }
  }
}
