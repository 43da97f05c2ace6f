/** The upload middleware's decisions: where a file goes, what it is called,
    how large it may be, and which files pass the image filter. Multer's own
    streaming and the disk writes are not modelled; the clock reading used in
    the file name is a parameter. */
module Upload {
  import opened Wrappers
  import opened Text

  const Destination: string := "uploads/"

  /** `1024 * 1024 * 5` bytes. */
  const MaxFileSize: nat := 5242880

  const RejectMessage: string := "File upload only supports JPEG, JPG, PNG, and GIF formats."

  /** A file of `size` bytes is within the `fileSize` limit. */
  predicate WithinSizeLimit(size: nat)
  {
    size <= 1024 * 1024 * 5
  }

  lemma SizeLimitIsFiveMegabytes()
    ensures WithinSizeLimit(MaxFileSize) && !WithinSizeLimit(MaxFileSize + 1)
  {
  }

  /** Where the run of '/' characters ending at `j` starts: `p[..e]` is the
      path without its trailing separators. */
  function SlashRunStart(p: string, j: nat): (e: nat)
    requires j <= |p|
    ensures e <= j
    ensures forall k :: e <= k < j ==> p[k] == '/'
    ensures e == 0 || p[e - 1] != '/'
  {
    if j > 0 && p[j - 1] == '/' then SlashRunStart(p, j - 1) else j
  }

  /** Where the path component ending at `j` starts: just after the last '/'
      before `j`, or 0. */
  function ComponentStart(p: string, j: nat): (s: nat)
    requires j <= |p|
    ensures s <= j
    ensures forall k :: s <= k < j ==> p[k] != '/'
    ensures s == 0 || p[s - 1] == '/'
  {
    if j > 0 && p[j - 1] != '/' then ComponentStart(p, j - 1) else j
  }

  /** The last '.' in `p[s..j]`. */
  function LastDot(p: string, s: nat, j: nat): (r: Option<nat>)
    requires s <= j <= |p|
    decreases j
    ensures r.Some? ==> s <= r.value < j && p[r.value] == '.'
                        && forall k :: r.value < k < j ==> p[k] != '.'
    ensures r.None? ==> forall k :: s <= k < j ==> p[k] != '.'
  {
    if j == s then None
    else if p[j - 1] == '.' then Some(j - 1)
    else LastDot(p, s, j - 1)
  }

  /** `path.extname` (POSIX), scanning the last component `p[s..e]` of the
      path without trailing separators: from its last '.' to its end, except
      that a component with no dot, one whose only dot leads it (".bashrc"),
      and ".." have no extension. */
  function ExtName(p: string): (x: string)
    ensures x == [] || x[0] == '.'
    ensures forall k :: 1 <= k < |x| ==> x[k] != '.' && x[k] != '/'
  {
    var e := SlashRunStart(p, |p|);
    var s := ComponentStart(p, e);
    match LastDot(p, s, e)
    case None => []
    case Some(d) =>
      if d == s || (e - s == 2 && p[s] == '.' && p[s + 1] == '.') then [] else p[d..e]
  }

  /** A name ending in a dot and at least one further character, after a
      non-empty stem, has exactly that ending as its extension. */
  lemma ExtNameOfStemAndExtension(stem: string, ext: string)
    requires stem != [] && stem[|stem| - 1] != '/'
    requires |ext| >= 2 && ext[0] == '.'
    requires forall k :: 1 <= k < |ext| ==> ext[k] != '.' && ext[k] != '/'
    ensures ExtName(stem + ext) == ext
  {
    var p := stem + ext;
    var e := SlashRunStart(p, |p|);
    assert p[|p| - 1] == ext[|ext| - 1];
    assert e == |p|;
    var s := ComponentStart(p, e);
    assert s < |stem|;
    assert p[|stem|] == '.';
    var d := LastDot(p, s, e).value;
    assert d == |stem|;
    assert p[d..e] == ext;
  }

  /** A name without a dot has no extension. */
  lemma NoDotNoExtension(p: string)
    requires '.' !in p
    ensures ExtName(p) == ""
  {
    var e := SlashRunStart(p, |p|);
    var s := ComponentStart(p, e);
    assert forall k :: s <= k < e ==> p[k] != '.';
  }

  /** A hidden file's leading dot does not start an extension. */
  lemma HiddenFileNoExtension(rest: string)
    requires rest != []
    requires forall k :: 0 <= k < |rest| ==> rest[k] != '.' && rest[k] != '/'
    ensures ExtName("." + rest) == ""
  {
    var p := "." + rest;
    assert p[|p| - 1] == rest[|rest| - 1];
    assert SlashRunStart(p, |p|) == |p|;
    assert forall k :: 1 <= k < |p| ==> p[k] == rest[k - 1];
    assert ComponentStart(p, |p|) == 0;
    assert p[0] == '.';
    assert LastDot(p, 0, |p|) == Some(0);
  }

  /** The three scans read only the characters before `j`, so text appended
      after `j` does not change them. */
  lemma {:induction false} ScansIgnoreSuffix(p: string, t: string, s: nat, j: nat)
    requires s <= j <= |p|
    ensures SlashRunStart(p + t, j) == SlashRunStart(p, j)
    ensures ComponentStart(p + t, j) == ComponentStart(p, j)
    ensures LastDot(p + t, s, j) == LastDot(p, s, j)
    decreases j
  {
    if j > 0 {
      assert (p + t)[j - 1] == p[j - 1];
      if s < j {
        ScansIgnoreSuffix(p, t, s, j - 1);
      } else {
        ScansIgnoreSuffix(p, t, 0, j - 1);
      }
    }
  }

  /** Trailing separators do not count: "a.png/" has the extension of
      "a.png". */
  lemma ExtNameIgnoresTrailingSlash(p: string)
    ensures ExtName(p + "/") == ExtName(p)
  {
    var q := p + "/";
    var e := SlashRunStart(p, |p|);
    assert SlashRunStart(q, |q|) == e by {
      assert q[|p|] == '/';
      ScansIgnoreSuffix(p, "/", 0, |p|);
    }
    var s := ComponentStart(p, e);
    assert ComponentStart(q, e) == s && LastDot(q, s, e) == LastDot(p, s, e) by {
      ScansIgnoreSuffix(p, "/", s, e);
    }
    assert q[s..e] == p[s..e];
  }

  /** Examples: a bare trailing dot is an extension of its own, and a dot in
      an earlier component gives none. */
  lemma ExtNameEdgeCases()
    ensures ExtName("a.") == "."
    ensures ExtName("a.b/c") == ""
    ensures ExtName("a.png/") == ".png"
  {
    assert LastDot("a.", 0, 2) == Some(1);
    assert ComponentStart("a.b/c", 5) == 4;
    ExtNameIgnoresTrailingSlash("a.png");
    ExtNameOfStemAndExtension("a", ".png");
    assert "a" + ".png" == "a.png";
    assert "a.png" + "/" == "a.png/";
  }

  /** `/jpeg|jpg|png|gif/.test(s)`: an unanchored search for any of the four. */
  predicate AllowedByPattern(s: string)
  {
    Contains(s, "jpeg") || Contains(s, "jpg") || Contains(s, "png") || Contains(s, "gif")
  }

  /** The `fileFilter` callback: accept, or reject with the fixed message. The
      MIME type is matched as it is, the extension after lowercasing. */
  function FileFilter(mimetype: string, originalname: string): (r: Result<bool, string>)
    ensures r.Ok? <==> AllowedByPattern(mimetype) && AllowedByPattern(Lower(ExtName(originalname)))
    ensures r.Ok? ==> r.value
    ensures r.Err? ==> r.error == RejectMessage
  {
    if AllowedByPattern(mimetype) && AllowedByPattern(Lower(ExtName(originalname))) then Ok(true)
    else Err(RejectMessage)
  }

  /** The MIME test is case-sensitive... */
  lemma MimeTestIsCaseSensitive()
    ensures AllowedByPattern("image/png")
    ensures !AllowedByPattern("IMAGE/PNG")
  {
    assert OccursAt("image/png", "png", 6);
    var m := "IMAGE/PNG";
    assert 'j' !in m && 'p' !in m && 'g' !in m;
    AbsentFirstChar(m, "jpeg");
    AbsentFirstChar(m, "jpg");
    AbsentFirstChar(m, "png");
    AbsentFirstChar(m, "gif");
  }

  /** A pattern cannot occur where its first character never does. */
  lemma AbsentFirstChar(s: string, pat: string)
    requires pat != [] && pat[0] !in s
    ensures !Contains(s, pat)
  {
    forall i ensures !OccursAt(s, pat, i) {
      if 0 <= i && i + |pat| <= |s| {
        assert s[i..i + |pat|][0] == s[i];
      }
    }
  }

  /** ...the extension test is not: a ".PNG" file with an "image/png" type
      passes, the same file typed "IMAGE/PNG" does not. */
  lemma ExtensionTestIgnoresCase(stem: string)
    requires stem != [] && stem[|stem| - 1] != '/'
    ensures FileFilter("image/png", stem + ".PNG").Ok?
    ensures FileFilter("IMAGE/PNG", stem + ".PNG").Err?
  {
    ExtNameOfStemAndExtension(stem, ".PNG");
    assert Lower(".PNG") == ".png";
    assert OccursAt(".png", "png", 1);
    MimeTestIsCaseSensitive();
  }

  /** The pattern is a substring test: an extension merely containing an image
      type passes. */
  lemma FilterIsUnanchored(stem: string)
    requires stem != [] && stem[|stem| - 1] != '/'
    ensures FileFilter("image/png", stem + ".pngx").Ok?
  {
    ExtNameOfStemAndExtension(stem, ".pngx");
    assert Lower(".pngx") == ".pngx";
    assert OccursAt(".pngx", "png", 1);
    MimeTestIsCaseSensitive();
  }

  /** The `filename` callback at clock reading `nowMs`. */
  function StoredFilename(fieldname: string, nowMs: nat, originalname: string): (r: string)
    ensures StartsWith(r, fieldname + "-")
    ensures |r| > |fieldname| + 1 + |ExtName(originalname)|
    ensures forall k :: |fieldname| + 1 <= k < |r| - |ExtName(originalname)| ==> IsDigit(r[k])
    ensures r[|r| - |ExtName(originalname)|..] == ExtName(originalname)
    ensures DigitsValue(r[|fieldname| + 1..|r| - |ExtName(originalname)|]) == nowMs
  {
    MiddleOf(fieldname + "-", NatToString(nowMs), ExtName(originalname));
    NatToStringRoundTrip(nowMs);
    fieldname + "-" + NatToString(nowMs) + ExtName(originalname)
  }

  /** The stored name keeps the original's extension. */
  lemma StoredFilenameKeepsExtension(fieldname: string, nowMs: nat, originalname: string)
    requires |ExtName(originalname)| >= 2
    ensures ExtName(StoredFilename(fieldname, nowMs, originalname)) == ExtName(originalname)
  {
    var digits := NatToString(nowMs);
    var stem := fieldname + "-" + digits;
    assert stem[|stem| - 1] == digits[|digits| - 1];
    assert IsDigit(stem[|stem| - 1]);
    assert StoredFilename(fieldname, nowMs, originalname) == stem + ExtName(originalname);
    ExtNameOfStemAndExtension(stem, ExtName(originalname));
  }

  lemma MiddleOf(pre: string, mid: string, post: string)
    ensures (pre + mid + post)[|pre|..|pre| + |mid|] == mid
  {
  }

  /** Two uploads of the same field and file at different clock readings get
      different names. */
  lemma StoredFilenamesDiffer(fieldname: string, a: nat, b: nat, originalname: string)
    requires a != b
    ensures StoredFilename(fieldname, a, originalname) != StoredFilename(fieldname, b, originalname)
  {
    var pre := fieldname + "-";
    var ext := ExtName(originalname);
    var na, nb := NatToString(a), NatToString(b);
    if |na| == |nb| && na != nb {
      MiddleOf(pre, na, ext);
      MiddleOf(pre, nb, ext);
    } else if na == nb {
      NatToStringInjective(a, b);
    }
  }
}
