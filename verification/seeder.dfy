/**
 * The icon-name rule of the demo seeder
 * (`backend/db/seeders/20230222054815-demo-users.js`):
 * `path.basename(filename, ".jpg").replace(/_/g, " ")`, with Node's POSIX
 * `path.basename`, and the id the seeder gives the account that owns the
 * seeded assets.
 */
module Seeder {
  import opened Wrappers
  import opened Strings
  import Policy

  const Ext: string := ".jpg"

  /** The id of the seeded "System Admin" user, author of the seeded icons. */
  const SeededAdminId: int := 1

  /** The path without its trailing `/` characters. */
  function TrimTrailingSlashes(p: string): (r: string)
    ensures IsPrefix(r, p)
    ensures |r| == 0 || r[|r| - 1] != '/'
    ensures forall i :: |r| <= i < |p| ==> p[i] == '/'
    ensures |p| == 0 || p[|p| - 1] != '/' ==> r == p
  {
    if |p| > 0 && p[|p| - 1] == '/' then TrimTrailingSlashes(p[..|p| - 1]) else p
  }

  /** Everything after the last `/`. */
  function LastSegment(p: string): (r: string)
    ensures '/' !in r
    ensures IsSuffix(r, p)
    ensures '/' !in p ==> r == p
  {
    if |p| == 0 then ""
    else if p[|p| - 1] == '/' then ""
    else LastSegment(p[..|p| - 1]) + [p[|p| - 1]]
  }

  lemma {:induction false} LastSegmentAfterSlash(dir: string, name: string)
    requires '/' !in name
    ensures LastSegment(dir + "/" + name) == name
    decreases |name|
  {
    var p := dir + "/" + name;
    if |name| == 0 {
      assert p[|p| - 1] == '/';
    } else {
      assert p[..|p| - 1] == dir + "/" + name[..|name| - 1];
      LastSegmentAfterSlash(dir, name[..|name| - 1]);
      assert name[..|name| - 1] + [name[|name| - 1]] == name;
    }
  }

  /**
   * `path.basename(p, ".jpg")` as Node's POSIX implementation computes it:
   * the final segment with one trailing ".jpg" removed, unless the segment is
   * ".jpg" itself. A path shorter than the suffix skips the suffix logic;
   * the path ".jpg" gives ""; and a final segment that is a proper suffix of
   * ".jpg" (such as "jpg" or "") keeps the trailing `/` characters.
   */
  function Basename(p: string): string {
    if |p| < |Ext| then LastSegment(TrimTrailingSlashes(p))
    else if p == Ext then ""
    else
      var t := TrimTrailingSlashes(p);
      StripExt(LastSegment(t), p[|t|..])
  }

  /** The suffix step of `Basename` for a final segment and the `/` characters after it. */
  function StripExt(seg: string, trailing: string): string {
    if |seg| < |Ext| && IsSuffix(seg, Ext) then seg + trailing
    else if |seg| > |Ext| && IsSuffix(Ext, seg) then seg[..|seg| - |Ext|]
    else seg
  }

  /** `s.replace(/_/g, " ")` */
  function ReplaceUnderscores(s: string): (r: string)
    ensures |r| == |s|
    ensures forall i :: 0 <= i < |s| ==> r[i] == (if s[i] == '_' then ' ' else s[i])
    ensures '_' !in r
  {
    if |s| == 0 then "" else [if s[0] == '_' then ' ' else s[0]] + ReplaceUnderscores(s[1..])
  }

  /** `getIconName(filename)` */
  function GetIconName(filename: string): (name: string)
    ensures '_' !in name
  {
    ReplaceUnderscores(Basename(filename))
  }

  /** A plain file name loses exactly one trailing ".jpg". */
  lemma StripsJpg(f: string)
    requires '/' !in f
    requires |f| > |Ext| && IsSuffix(Ext, f)
    ensures GetIconName(f) == ReplaceUnderscores(f[..|f| - |Ext|])
  {
  }

  /** ".jpg" is removed once only: "a.jpg.jpg" keeps the first one. */
  lemma StripsOnlyOnce()
    ensures GetIconName("a.jpg.jpg") == "a.jpg"
  {
    var f := "a.jpg.jpg";
    assert f[5..] == Ext;
    StripsJpg(f);
    assert f[..5] == "a.jpg";
    NoUnderscoreKept("a.jpg");
  }

  /** Text without `_` is left as it is. */
  lemma NoUnderscoreKept(s: string)
    requires '_' !in s
    ensures ReplaceUnderscores(s) == s
  {
    var r := ReplaceUnderscores(s);
    assert forall i :: 0 <= i < |s| ==> r[i] == s[i];
  }

  /** A plain file name without the exact ".jpg" suffix keeps its extension. */
  lemma KeepsOtherExtensions(f: string)
    requires '/' !in f
    requires !IsSuffix(Ext, f)
    ensures GetIconName(f) == ReplaceUnderscores(f)
  {
    if |f| >= |Ext| {
      assert f != Ext;
      assert f[|f|..] == "";
    }
  }

  /** The suffix match is case-sensitive. */
  lemma UpperCaseKept()
    ensures GetIconName("a.JPG") == "a.JPG"
  {
    PlainNameKept("a.JPG", 4);
  }

  /** A plain name without `_` whose last four characters are not ".jpg" is its own icon name. */
  lemma PlainNameKept(f: string, i: nat)
    requires '/' !in f && '_' !in f
    requires |f| >= |Ext| && i == |f| - 1 && f[i] != Ext[3]
    ensures GetIconName(f) == f
  {
    assert !IsSuffix(Ext, f);
    KeepsOtherExtensions(f);
    NoUnderscoreKept(f);
  }

  lemma TrimUnslashed(p: string)
    requires |p| > 0 && p[|p| - 1] != '/'
    ensures TrimTrailingSlashes(p) == p
  {
  }

  lemma BasenameLongUnslashed(p: string)
    requires |p| >= |Ext| && p[|p| - 1] != '/' && p != Ext
    ensures Basename(p) == StripExt(LastSegment(p), "")
  {
    TrimUnslashed(p);
    assert p[|p|..] == "";
  }

  lemma BasenameShortUnslashed(p: string)
    requires 0 < |p| < |Ext| && p[|p| - 1] != '/'
    ensures Basename(p) == LastSegment(p)
  {
    TrimUnslashed(p);
  }

  lemma StripExtShort(seg: string)
    requires |seg| < |Ext|
    ensures StripExt(seg, "") == seg
  {
    assert seg + "" == seg;
  }

  /** For a path whose last character is not `/`, the suffix step sees the whole final segment. */
  lemma BasenameOfUnslashed(p: string)
    requires |p| > 0 && p[|p| - 1] != '/' && p != Ext
    ensures Basename(p) == StripExt(LastSegment(p), "")
  {
    if |p| < |Ext| {
      BasenameShortUnslashed(p);
      StripExtShort(LastSegment(p));
    } else {
      BasenameLongUnslashed(p);
    }
  }

  /** A directory prefix is dropped: only the final segment names the icon. */
  lemma FinalSegmentOnly(dir: string, name: string)
    requires '/' !in name && name != "" && name != Ext
    ensures GetIconName(dir + "/" + name) == GetIconName(name)
  {
    var p := dir + "/" + name;
    assert p[|p| - 1] == name[|name| - 1];
    assert p[|dir|] == '/';
    LastSegmentAfterSlash(dir, name);
    BasenameOfUnslashed(p);
    BasenameOfUnslashed(name);
  }

  /** The name of a path that does not end in `/` has no `/` in it. */
  lemma NoSeparatorInName(f: string)
    requires |f| > 0 && f[|f| - 1] != '/'
    ensures '/' !in GetIconName(f)
  {
    BasenameNoSlash(f);
  }

  lemma BasenameNoSlash(f: string)
    requires |f| > 0 && f[|f| - 1] != '/'
    ensures '/' !in Basename(f)
  {
    if |f| >= |Ext| && f != Ext {
      var t := TrimTrailingSlashes(f);
      assert f[|t|..] == "";
      StripExtNoSlash(LastSegment(t));
    }
  }

  lemma StripExtNoSlash(seg: string)
    requires '/' !in seg
    ensures '/' !in StripExt(seg, "")
  {
    assert seg + "" == seg;
    if |seg| > |Ext| && IsSuffix(Ext, seg) {
      assert forall i :: 0 <= i < |seg| - |Ext| ==> seg[..|seg| - |Ext|][i] == seg[i];
    }
  }

  /**
   * The seeder and the system-assets routes treat author 1 as the system,
   * but the visibility policy's system author is -1: to every other user the
   * seeded admin's items are private, and the policy's public items are not
   * the seeded ones.
   */
  lemma SystemAuthorMismatch(u: int)
    requires u != SeededAdminId
    ensures SeededAdminId != Policy.SystemAuthorId
    ensures !Policy.UserCanViewItem(Some(u), SeededAdminId)
    ensures !Policy.UserCanViewItem(None, SeededAdminId)
  {
  }
}
