/** Which files the two upload buttons accept before anything is sent. */
module FileAcceptance {
  import opened JsText

  /** The MIME types the current uploader lists. */
  const ValidTypes: seq<string> := ["video/mp4", "video/webm", "video/ogg", "video/x-matroska"]

  /** The MIME types the earlier room page lists. */
  const LegacyValidTypes: seq<string> := ["video/mp4", "video/webm", "video/ogg"]

  /** `name.toLowerCase()` from just after its last `.`; the whole lower-cased name when it has none. */
  function Extension(name: string): string
  {
    var lower := Lower(name);
    Substring(lower, LastIndexOf(lower, '.') + 1, |lower|)
  }

  /** The current uploader's test: a listed MIME type, or the extension `mkv`. The separate list of
      extensions in that file is never consulted. */
  predicate Accepted(name: string, mimeType: string)
  {
    mimeType in ValidTypes || Extension(name) == "mkv"
  }

  /** The earlier page's test: a listed MIME type only. */
  predicate LegacyAccepted(mimeType: string)
  {
    mimeType in LegacyValidTypes
  }

  /** The extension is `mkv` exactly when the lower-cased name is `mkv` itself or ends in `.mkv`. */
  lemma ExtensionIsMkvIff(name: string)
    ensures var lower := Lower(name);
      Extension(name) == "mkv" <==>
        lower == "mkv" || (|lower| >= 4 && lower[|lower| - 4..] == ".mkv")
  {
    AfterLastDotIsMkvIff(Lower(name));
  }

  lemma AfterLastDotIsMkvIff(l: string)
    ensures Substring(l, LastIndexOf(l, '.') + 1, |l|) == "mkv" <==>
      l == "mkv" || (|l| >= 4 && l[|l| - 4..] == ".mkv")
  {
    if |l| >= 4 && l[|l| - 4..] == ".mkv" {
      MkvSuffixExtension(l);
    } else if l == "mkv" {
      BareMkvExtension(l);
    } else {
      OtherExtension(l);
    }
  }

  lemma MkvSuffixExtension(l: string)
    requires |l| >= 4 && l[|l| - 4..] == ".mkv"
    ensures Substring(l, LastIndexOf(l, '.') + 1, |l|) == "mkv"
  {
    MkvSuffixLastDot(l);
    SuffixAfterDot(l);
  }

  lemma BareMkvExtension(l: string)
    requires l == "mkv"
    ensures Substring(l, LastIndexOf(l, '.') + 1, |l|) == "mkv"
  {
    assert '.' !in l by {
      assert l[0] == 'm' && l[1] == 'k' && l[2] == 'v';
    }
  }

  lemma OtherExtension(l: string)
    requires l != "mkv" && !(|l| >= 4 && l[|l| - 4..] == ".mkv")
    ensures Substring(l, LastIndexOf(l, '.') + 1, |l|) != "mkv"
  {
    ExtensionAfterNotMkv(l, LastIndexOf(l, '.'));
  }

  /** The text after position `i` (a dot, or -1 for none) is not `mkv` unless the name is `mkv` or ends in `.mkv`. */
  lemma ExtensionAfterNotMkv(l: string, i: int)
    requires -1 <= i < |l| && (i >= 0 ==> l[i] == '.')
    requires l != "mkv" && !(|l| >= 4 && l[|l| - 4..] == ".mkv")
    ensures Substring(l, i + 1, |l|) != "mkv"
  {
    SubstringToEnd(l, i + 1);
    if i >= 0 {
      NoMkvAfterDot(l, i);
    } else {
      assert l[i + 1..] == l;
    }
  }

  lemma SuffixAfterDot(l: string)
    requires |l| >= 4 && l[|l| - 4..] == ".mkv"
    ensures Substring(l, |l| - 3, |l|) == "mkv"
  {
    SubstringToEnd(l, |l| - 3);
    assert l[|l| - 3..] == l[|l| - 4..][1..];
  }

  /** `substring(start, length)` within range is the suffix from `start`. */
  lemma SubstringToEnd(l: string, start: int)
    requires 0 <= start <= |l|
    ensures Substring(l, start, |l|) == l[start..]
  {
  }

  /** Without a `.mkv` suffix, no dot is followed by exactly `mkv`. */
  lemma NoMkvAfterDot(l: string, i: int)
    requires 0 <= i < |l| && l[i] == '.'
    requires !(|l| >= 4 && l[|l| - 4..] == ".mkv")
    ensures l[i + 1..] != "mkv"
  {
    if l[i + 1..] == "mkv" {
      DotThenMkv(l, i);
    }
  }

  /** In a name ending in `.mkv` the last dot is the one of the suffix. */
  lemma MkvSuffixLastDot(l: string)
    requires |l| >= 4 && l[|l| - 4..] == ".mkv"
    ensures LastIndexOf(l, '.') == |l| - 4
  {
    var n := |l|;
    var t := l[n - 4..];
    assert l[n - 4] == t[0] == '.';
    assert l[n - 3] == t[1] == 'm';
    assert l[n - 2] == t[2] == 'k';
    assert l[n - 1] == t[3] == 'v';
  }

  /** A dot followed by exactly `mkv` at the end is a `.mkv` suffix. */
  lemma DotThenMkv(l: string, i: int)
    requires 0 <= i < |l| && l[i] == '.' && l[i + 1..] == "mkv"
    ensures |l| >= 4 && l[|l| - 4..] == ".mkv"
  {
    assert l[i..] == [l[i]] + l[i + 1..];
  }

  /** The acceptance test in terms of the name: a listed MIME type, or a name that is `mkv` or ends
      in `.mkv` in any letter case. */
  lemma AcceptedIff(name: string, mimeType: string)
    ensures Accepted(name, mimeType) <==>
      || mimeType in ValidTypes
      || Lower(name) == "mkv"
      || (|name| >= 4 && Lower(name)[|name| - 4..] == ".mkv")
  {
    ExtensionIsMkvIff(name);
  }

  /** Everything the earlier page accepted, the current uploader accepts too. */
  lemma LegacyAcceptedIsAccepted(name: string, mimeType: string)
    ensures LegacyAccepted(mimeType) ==> Accepted(name, mimeType)
  {
  }

  /** A name without a dot that reads `MKV` is accepted whatever its type. */
  lemma BareMkvAccepted()
    ensures Accepted("MKV", "")
  {
    assert Lower("MKV") == "mkv";
    assert Extension("MKV") == "mkv";
  }

  /** A `.mp4` name with an unlisted type is refused: the extension list plays no part. */
  lemma Mp4NameAloneRefused()
    ensures !Accepted("movie.mp4", "application/octet-stream")
  {
    var l := Lower("movie.mp4");
    assert l == "movie.mp4";
    assert LastIndexOf(l, '.') == 5;
    assert Extension("movie.mp4") == "mp4";
  }

  /** The Matroska type is accepted now and was refused by the earlier page. */
  lemma MatroskaTypeNowAccepted(name: string)
    ensures Accepted(name, "video/x-matroska") && !LegacyAccepted("video/x-matroska")
  {
  }
}
