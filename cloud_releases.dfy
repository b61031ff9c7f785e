/**
 * The web client's list of APK releases hosted on cloud storage: ordering
 * releases by version, picking the latest, and rewriting Google Drive and
 * Dropbox share links into direct-download links.
 */
module CloudReleases {
  import opened Models
  import opened Text

  datatype CloudRelease = CloudRelease(
    version: string,
    releaseDate: string,
    releaseNotes: string,
    downloadUrl: string,
    minAndroidVersion: Option<string>)

  /** The configured releases: one entry whose download link is still empty. */
  const CLOUD_RELEASES: seq<CloudRelease> := [
    CloudRelease(
      "1.1.0",
      "2025-01-06",
      "### What's New in v1.1.0\n- Improved barcode scanning\n- Enhanced offline support\n- Bug fixes and performance improvements",
      "",
      Some("7.0"))
  ]

  // ---------------------------------------------------------------------
  // Versions

  /** The first index of `c` in `s`, if any. */
  function IndexOfChar(s: string, c: char): (r: Option<nat>)
    ensures r.Some? ==> r.value < |s| && s[r.value] == c && forall k :: 0 <= k < r.value ==> s[k] != c
    ensures r.None? ==> forall k :: 0 <= k < |s| ==> s[k] != c
  {
    if s == [] then None
    else if s[0] == c then Some(0)
    else
      var r := IndexOfChar(s[1..], c);
      if r.Some? then Some(r.value + 1) else None
  }

  /** `s.split(sep)`: the pieces between separators, keeping empty ones. */
  function Split(s: string, sep: char): (parts: seq<string>)
    ensures 1 <= |parts|
    decreases |s|
  {
    var i := IndexOfChar(s, sep);
    if i.None? then [s] else [s[..i.value]] + Split(s[i.value + 1..], sep)
  }

  /** `Number(part) || 0` for a piece of a version string: a run of digits
      reads as its value; the empty piece and anything else read as 0. */
  function ComponentValue(part: string): nat {
    if AllDigits(part) then DigitsValue(part) else 0
  }

  /** The `i`-th numeric component of a version; a missing one is 0. */
  function Component(version: string, i: nat): nat {
    var parts := Split(version, '.');
    if i < |parts| then ComponentValue(parts[i]) else 0
  }

  /** The comparator's loop from component `i` on: the difference of the
      first differing component, newer first; 0 when the first three agree. */
  function CompareFrom(a: CloudRelease, b: CloudRelease, i: nat): int
    requires i <= 3
    decreases 3 - i
  {
    if i == 3 then 0
    else if Component(b.version, i) != Component(a.version, i) then Component(b.version, i) - Component(a.version, i)
    else CompareFrom(a, b, i + 1)
  }

  /** The sort comparator: negative when `a` sorts before `b`, that is when
      `a` is newer, and zero when the two versions tie. */
  function Compare(a: CloudRelease, b: CloudRelease): (r: int)
    ensures r < 0 <==> Newer(a, b)
    ensures r == 0 <==> Key(a) == Key(b)
  {
    assert CompareFrom(a, b, 2) == Component(b.version, 2) - Component(a.version, 2);
    CompareFrom(a, b, 0)
  }

  /** The three components the comparator looks at. */
  datatype VersionKey = VersionKey(major: nat, minor: nat, patch: nat)

  function Key(r: CloudRelease): VersionKey {
    VersionKey(Component(r.version, 0), Component(r.version, 1), Component(r.version, 2))
  }

  /** `a`'s version is strictly newer than `b`'s, lexicographically on the
      first three components. */
  predicate Newer(a: CloudRelease, b: CloudRelease) {
    var ka, kb := Key(a), Key(b);
    ka.major > kb.major || (ka.major == kb.major && (ka.minor > kb.minor || (ka.minor == kb.minor && ka.patch > kb.patch)))
  }

  /** The comparator puts `a` first exactly when `a` is newer, ties exactly
      when the three components agree, and is antisymmetric. */
  lemma CompareMeaning(a: CloudRelease, b: CloudRelease)
    ensures Compare(a, b) < 0 <==> Newer(a, b)
    ensures Compare(a, b) == 0 <==> Key(a) == Key(b)
    ensures Compare(a, b) == -Compare(b, a)
  {
    assert CompareFrom(a, b, 2) == Component(b.version, 2) - Component(a.version, 2);
    assert CompareFrom(b, a, 2) == Component(a.version, 2) - Component(b.version, 2);
  }

  /** "Not after" is a total preorder: total and transitive. */
  lemma CompareTotalPreorder(a: CloudRelease, b: CloudRelease, c: CloudRelease)
    ensures Compare(a, b) <= 0 || Compare(b, a) <= 0
    ensures Compare(a, b) <= 0 && Compare(b, c) <= 0 ==> Compare(a, c) <= 0
  {
    CompareMeaning(a, b);
    CompareMeaning(b, c);
    CompareMeaning(a, c);
  }

  /** Ordered newest first: no release is strictly newer than one before it. */
  predicate SortedNewestFirst(s: seq<CloudRelease>) {
    forall i, j :: 0 <= i < j < |s| ==> Compare(s[i], s[j]) <= 0
  }

  /** A release not after any element of a newest-first list can lead it. */
  lemma SortedCons(h: CloudRelease, t: seq<CloudRelease>)
    requires SortedNewestFirst(t)
    requires forall j :: 0 <= j < |t| ==> Compare(h, t[j]) <= 0
    ensures SortedNewestFirst([h] + t)
  {
    var r := [h] + t;
    forall i, j | 0 <= i < j < |r| ensures Compare(r[i], r[j]) <= 0 {
      if i > 0 {
        assert r[i] == t[i - 1] && r[j] == t[j - 1];
      }
    }
  }

  /** A release older than the head of a newest-first list is not after
      any of its elements. */
  lemma LeadsSorted(x: CloudRelease, s: seq<CloudRelease>)
    requires SortedNewestFirst(s) && s != [] && Compare(x, s[0]) < 0
    ensures forall j :: 0 <= j < |s| ==> Compare(x, s[j]) <= 0
  {
    forall j | 0 <= j < |s| ensures Compare(x, s[j]) <= 0 {
      CompareTotalPreorder(x, s[0], s[j]);
    }
  }

  /** The head of a newest-first list is not after any element of its tail
      with `x` inserted, when `x` is not newer than it. */
  lemma HeadLeadsInserted(x: CloudRelease, s: seq<CloudRelease>, rest: seq<CloudRelease>)
    requires SortedNewestFirst(s) && s != [] && Compare(x, s[0]) >= 0
    requires multiset(rest) == multiset(s[1..]) + multiset{x}
    ensures forall j :: 0 <= j < |rest| ==> Compare(s[0], rest[j]) <= 0
  {
    forall j | 0 <= j < |rest| ensures Compare(s[0], rest[j]) <= 0 {
      assert rest[j] in multiset(rest);
      if rest[j] == x {
        CompareMeaning(x, s[0]);
      } else {
        assert rest[j] in s[1..];
        var i :| 0 <= i < |s[1..]| && s[1..][i] == rest[j];
        assert s[i + 1] == rest[j];
      }
    }
  }

  /** The releases of `s` whose three components are `k`, in their order in
      `s`: the comparator cannot tell them apart, so a stable sort keeps this
      subsequence as it is. */
  function WithKey(s: seq<CloudRelease>, k: VersionKey): seq<CloudRelease> {
    if s == [] then [] else (if Key(s[0]) == k then [s[0]] else []) + WithKey(s[1..], k)
  }

  /** Appending a release extends its key's subsequence only. */
  lemma {:induction false} WithKeyAppend(s: seq<CloudRelease>, x: CloudRelease, k: VersionKey)
    ensures WithKey(s + [x], k) == WithKey(s, k) + if Key(x) == k then [x] else []
  {
    if s != [] {
      assert (s + [x])[1..] == s[1..] + [x];
      WithKeyAppend(s[1..], x, k);
    }
  }

  /** A list none of whose releases has key `k` has an empty subsequence for it. */
  lemma {:induction false} WithKeyNone(s: seq<CloudRelease>, k: VersionKey)
    requires forall j :: 0 <= j < |s| ==> Key(s[j]) != k
    ensures WithKey(s, k) == []
  {
    if s != [] {
      WithKeyNone(s[1..], k);
    }
  }

  /** The position of the first release of `s` with key `k`; `|s|` when
      there is none. */
  function FirstWithKey(s: seq<CloudRelease>, k: VersionKey): (i: nat)
    ensures i <= |s|
    ensures i < |s| ==> Key(s[i]) == k
    ensures forall j :: 0 <= j < i ==> Key(s[j]) != k
  {
    if s == [] then 0
    else if Key(s[0]) == k then 0
    else 1 + FirstWithKey(s[1..], k)
  }

  /** A key's subsequence starts with the first release of `s` with that key. */
  lemma {:induction false} WithKeyFirst(s: seq<CloudRelease>, k: VersionKey)
    requires WithKey(s, k) != []
    ensures FirstWithKey(s, k) < |s| && WithKey(s, k)[0] == s[FirstWithKey(s, k)]
  {
    if Key(s[0]) != k {
      WithKeyFirst(s[1..], k);
    }
  }

  /** A release strictly newer than `a` has another key than any release
      not newer than `a`. */
  lemma NewerThanHeadHasOtherKey(x: CloudRelease, a: CloudRelease, b: CloudRelease)
    requires Compare(x, a) < 0 && Compare(a, b) <= 0
    ensures Key(b) != Key(x)
  {
    CompareTotalPreorder(x, a, b);
    CompareMeaning(x, a);
    CompareMeaning(a, b);
    CompareMeaning(x, b);
  }

  /** Of two releases with different keys, one not after the other is newer. */
  lemma NotAfterWithOtherKeyIsNewer(a: CloudRelease, b: CloudRelease)
    requires Compare(a, b) <= 0 && Key(a) != Key(b)
    ensures Newer(a, b)
  {
    CompareMeaning(a, b);
  }

  lemma ConcatAssoc<T>(a: seq<T>, b: seq<T>, c: seq<T>)
    ensures a + (b + c) == (a + b) + c
  {
  }

  /** A release newer than the head of a newest-first list has another key
      than each of its elements. */
  lemma NewerThanAll(x: CloudRelease, s: seq<CloudRelease>)
    requires SortedNewestFirst(s) && s != [] && Compare(x, s[0]) < 0
    ensures forall j :: 0 <= j < |s| ==> Key(s[j]) != Key(x)
  {
    forall j | 0 <= j < |s| ensures Key(s[j]) != Key(x) {
      if j == 0 {
        CompareMeaning(x, s[0]);
      } else {
        assert Compare(s[0], s[j]) <= 0;
        NewerThanHeadHasOtherKey(x, s[0], s[j]);
      }
    }
  }

  /** `Insert` puts `x` after every release with its key. */
  lemma {:induction false} InsertStable(x: CloudRelease, s: seq<CloudRelease>, k: VersionKey)
    requires SortedNewestFirst(s)
    ensures WithKey(Insert(x, s), k) == WithKey(s, k) + if Key(x) == k then [x] else []
  {
    var t := if Key(x) == k then [x] else [];
    if s == [] {
      assert WithKey([x], k) == t + WithKey([], k);
    } else if Compare(x, s[0]) < 0 {
      assert Insert(x, s) == [x] + s;
      assert ([x] + s)[1..] == s;
      assert WithKey([x] + s, k) == t + WithKey(s, k);
      if Key(x) == k {
        NewerThanAll(x, s);
        WithKeyNone(s, k);
      }
    } else {
      var rest := Insert(x, s[1..]);
      var h := if Key(s[0]) == k then [s[0]] else [];
      assert Insert(x, s) == [s[0]] + rest;
      assert ([s[0]] + rest)[1..] == rest;
      assert WithKey([s[0]] + rest, k) == h + WithKey(rest, k);
      assert WithKey(s, k) == h + WithKey(s[1..], k);
      InsertStable(x, s[1..], k);
      ConcatAssoc(h, WithKey(s[1..], k), t);
    }
  }

  /** Insert `x` into a newest-first list, after every release not older
      than it. */
  function Insert(x: CloudRelease, s: seq<CloudRelease>): (r: seq<CloudRelease>)
    requires SortedNewestFirst(s)
    ensures SortedNewestFirst(r)
    ensures multiset(r) == multiset(s) + multiset{x}
  {
    if s == [] then [x]
    else if Compare(x, s[0]) < 0 then
      LeadsSorted(x, s);
      SortedCons(x, s);
      [x] + s
    else
      var rest := Insert(x, s[1..]);
      HeadLeadsInserted(x, s, rest);
      SortedCons(s[0], rest);
      assert s == [s[0]] + s[1..];
      [s[0]] + rest
  }

  /** `[...releases].sort(comparator)` on a copy: newest first, same
      releases, and (the sort being stable) releases the comparator ties
      keep their order. */
  function SortReleases(s: seq<CloudRelease>): (r: seq<CloudRelease>)
    ensures SortedNewestFirst(r)
    ensures multiset(r) == multiset(s)
    ensures forall k :: WithKey(r, k) == WithKey(s, k)
  {
    if s == [] then []
    else
      var init, last := s[..|s| - 1], s[|s| - 1];
      assert s == init + [last];
      var sorted := SortReleases(init);
      forall k ensures WithKey(Insert(last, sorted), k) == WithKey(s, k) {
        InsertStable(last, sorted, k);
        WithKeyAppend(init, last, k);
      }
      Insert(last, sorted)
  }

  /** `getAllCloudReleases`. */
  function GetAllCloudReleases(): (r: seq<CloudRelease>)
    ensures SortedNewestFirst(r) && multiset(r) == multiset(CLOUD_RELEASES)
  {
    SortReleases(CLOUD_RELEASES)
  }

  /** `getLatestCloudRelease` over a given release list: a newest release,
      and of several equally new ones the first listed. */
  function GetLatest(releases: seq<CloudRelease>): (r: Option<CloudRelease>)
    ensures r.None? <==> releases == []
    ensures r.Some? ==> r.value in releases
    ensures r.Some? ==> forall y :: y in releases ==> !Newer(y, r.value)
    ensures r.Some? ==> exists i :: 0 <= i < |releases| && releases[i] == r.value &&
                                    forall j :: 0 <= j < i ==> Newer(r.value, releases[j])
  {
    if releases == [] then None
    else
      var sorted := SortReleases(releases);
      FirstNewestLeads(releases, sorted);
      assert sorted[0] in multiset(sorted);
      forall y | y in releases ensures !Newer(y, sorted[0]) {
        assert y in multiset(sorted);
        var j :| 0 <= j < |sorted| && sorted[j] == y;
        if j > 0 {
          assert Compare(sorted[0], sorted[j]) <= 0;
        }
        CompareMeaning(sorted[0], y);
        CompareMeaning(y, sorted[0]);
      }
      Some(sorted[0])
  }

  /** The head of a newest-first list is not after any of its elements. */
  lemma HeadNotAfter(sorted: seq<CloudRelease>, y: CloudRelease)
    requires SortedNewestFirst(sorted) && sorted != [] && y in sorted
    ensures Compare(sorted[0], y) <= 0
  {
    var m :| 0 <= m < |sorted| && sorted[m] == y;
    if m > 0 {
      assert Compare(sorted[0], sorted[m]) <= 0;
    }
  }

  /** The head of a stable newest-first ordering of `releases` is the
      first-listed release with its key, and every release listed before it
      is older. */
  lemma FirstNewestLeads(releases: seq<CloudRelease>, sorted: seq<CloudRelease>)
    requires sorted != [] && SortedNewestFirst(sorted) && multiset(sorted) == multiset(releases)
    requires forall k :: WithKey(sorted, k) == WithKey(releases, k)
    ensures exists i :: 0 <= i < |releases| && releases[i] == sorted[0] &&
                        forall j :: 0 <= j < i ==> Newer(sorted[0], releases[j])
  {
    var top, k := sorted[0], Key(sorted[0]);
    assert WithKey(sorted, k) == [top] + WithKey(sorted[1..], k);
    assert WithKey(releases, k) == WithKey(sorted, k);
    WithKeyFirst(releases, k);
    var i := FirstWithKey(releases, k);
    forall j | 0 <= j < i ensures Newer(top, releases[j]) {
      var y := releases[j];
      assert y in multiset(releases);
      assert y in sorted by { assert y in multiset(sorted); }
      HeadNotAfter(sorted, y);
      NotAfterWithOtherKeyIsNewer(top, y);
    }
  }

  /** `isCloudStorageConfigured` over a given release list. */
  function IsConfigured(releases: seq<CloudRelease>): (b: bool)
    // configured only when some release carries a link
    ensures b ==> exists r :: r in releases && r.downloadUrl != []
    // when every release carries a link, configured exactly when there is one
    ensures (forall r :: r in releases ==> r.downloadUrl != []) ==> (b <==> releases != [])
  {
    var latest := GetLatest(releases);
    latest.Some? && |latest.value.downloadUrl| > 0
  }

  /** With the shipped list, the latest release is the 1.1.0 entry and cloud
      storage counts as not configured, because its link is empty. */
  lemma ShippedReleasesNotConfigured()
    ensures GetLatest(CLOUD_RELEASES) == Some(CLOUD_RELEASES[0])
    ensures GetAllCloudReleases() == CLOUD_RELEASES
    ensures !IsConfigured(CLOUD_RELEASES)
  {
    assert CLOUD_RELEASES[..0] == [];
  }

  // ---------------------------------------------------------------------
  // Share links

  /** `p` occurs in `s` at position `j`. */
  predicate Occurs(s: string, p: string, j: nat) {
    j + |p| <= |s| && s[j..j + |p|] == p
  }

  /** The first occurrence of `p` in `s` at or after `from`. */
  function IndexOf(s: string, p: string, from: nat): (r: Option<nat>)
    ensures r.Some? ==> from <= r.value && Occurs(s, p, r.value)
    ensures r.Some? ==> forall j :: from <= j < r.value ==> !Occurs(s, p, j)
    ensures r.None? ==> forall j :: from <= j ==> !Occurs(s, p, j)
    decreases |s| - from
  {
    if from + |p| > |s| then None
    else if Occurs(s, p, from) then Some(from)
    else IndexOf(s, p, from + 1)
  }

  /** `s.includes(p)`. */
  predicate Includes(s: string, p: string) {
    IndexOf(s, p, 0).Some?
  }

  /** `s.replace(p, q)` with a plain pattern: the first occurrence only. */
  function ReplaceFirst(s: string, p: string, q: string): string {
    var i := IndexOf(s, p, 0);
    if i.None? then s else s[..i.value] + q + s[i.value + |p|..]
  }

  /** The characters of `[a-zA-Z0-9_-]`. */
  predicate IsIdChar(c: char) {
    IsAsciiLetter(c) || IsDigit(c) || c == '_' || c == '-'
  }

  predicate AllIdChars(s: string) {
    forall k :: 0 <= k < |s| ==> IsIdChar(s[k])
  }

  /** The end of the longest run of id characters starting at `j`. */
  function RunEnd(s: string, j: nat): (e: nat)
    requires j <= |s|
    ensures j <= e <= |s| && AllIdChars(s[j..e])
    ensures e == |s| || !IsIdChar(s[e])
    decreases |s| - j
  {
    if j < |s| && IsIdChar(s[j]) then RunEnd(s, j + 1) else j
  }

  /** The regular expression `<p>([a-zA-Z0-9_-]+)` matches at `j`. */
  predicate PatternAt(s: string, p: string, j: nat) {
    Occurs(s, p, j) && j + |p| < |s| && IsIdChar(s[j + |p|])
  }

  /** The leftmost match at or after `from`. */
  function SearchFrom(s: string, p: string, from: nat): (r: Option<nat>)
    ensures r.Some? ==> from <= r.value && PatternAt(s, p, r.value)
    ensures r.Some? ==> forall j :: from <= j < r.value ==> !PatternAt(s, p, j)
    ensures r.None? ==> forall j :: from <= j ==> !PatternAt(s, p, j)
    decreases |s| - from
  {
    if from + |p| >= |s| then None
    else if PatternAt(s, p, from) then Some(from)
    else SearchFrom(s, p, from + 1)
  }

  /** `s.match(/<p>([a-zA-Z0-9_-]+)/)?.[1]`: the greedy group of the
      leftmost match. */
  function Capture(s: string, p: string): (r: Option<string>)
    ensures r.Some? ==> |r.value| >= 1 && AllIdChars(r.value)
    ensures r.None? <==> forall j :: !PatternAt(s, p, j)
    // the group follows the leftmost match of `p` (`SearchFrom` from 0) and
    // runs as far as it can
    ensures r.Some? ==>
              var j := SearchFrom(s, p, 0).value;
              && Occurs(s, p + r.value, j)
              && (j + |p| + |r.value| == |s| || !IsIdChar(s[j + |p| + |r.value|]))
  {
    var m := SearchFrom(s, p, 0);
    if m.None? then None
    else
      var j := m.value;
      var e := RunEnd(s, j + |p|);
      assert s[j..e] == s[j..j + |p|] + s[j + |p|..e];
      assert Occurs(s, p + s[j + |p|..e], j);
      Some(s[j + |p|..e])
  }

  const DRIVE_HOST: string := "drive.google.com"
  const DRIVE_SCHEME: string := "https://"
  const DRIVE_DOWNLOAD_PATH: string := "/uc?export=download&id="
  const DIRECT_PREFIX: string := DRIVE_SCHEME + DRIVE_HOST + DRIVE_DOWNLOAD_PATH
  const SHARE_PREFIX: string := DRIVE_SCHEME + DRIVE_HOST + "/file/d/"

  /** The file id the three patterns find, tried in order. */
  function DriveFileId(link: string): (r: Option<string>)
    ensures r.Some? ==> |r.value| >= 1 && AllIdChars(r.value)
    ensures r.None? <==> forall j :: !PatternAt(link, "/file/d/", j) && !PatternAt(link, "id=", j) && !PatternAt(link, "/d/", j)
  {
    var m1 := Capture(link, "/file/d/");
    if m1.Some? then m1
    else
      var m2 := Capture(link, "id=");
      if m2.Some? then m2 else Capture(link, "/d/")
  }

  /** `convertGoogleDriveLink`. */
  function ConvertGoogleDriveLink(link: string): (r: string)
    ensures DriveFileId(link).None? ==> r == link
    ensures DriveFileId(link).Some? ==> |r| > |DIRECT_PREFIX| && r[..|DIRECT_PREFIX|] == DIRECT_PREFIX
    ensures DriveFileId(link).Some? ==> r == DIRECT_PREFIX + DriveFileId(link).value
  {
    var id := DriveFileId(link);
    if id.Some? then DIRECT_PREFIX + id.value else link
  }

  /** The only '/' and '=' characters of a direct link are the prefix's. */
  lemma DirectLinkPunctuation(id: string, k: nat)
    requires AllIdChars(id) && k < |DIRECT_PREFIX + id|
    ensures (DIRECT_PREFIX + id)[k] == '/' ==> k == 6 || k == 7 || k == 24
    ensures (DIRECT_PREFIX + id)[k] == '=' ==> k == 34 || k == 46
  {
    var s := DIRECT_PREFIX + id;
    assert s == DRIVE_SCHEME + DRIVE_HOST + DRIVE_DOWNLOAD_PATH + id;
    SegmentPunctuation();
    if k < 8 {
      assert s[k] == DRIVE_SCHEME[k];
    } else if k < 24 {
      assert s[k] == DRIVE_HOST[k - 8];
    } else if k < 47 {
      assert s[k] == DRIVE_DOWNLOAD_PATH[k - 24];
    } else {
      assert s[k] == id[k - 47];
    }
  }

  /** Where the pieces of the direct-link prefix hold a `/` or a `=`. */
  lemma SegmentPunctuation()
    ensures |DRIVE_SCHEME| == 8 && |DRIVE_HOST| == 16 && |DRIVE_DOWNLOAD_PATH| == 23
    ensures forall i :: 0 <= i < 8 && DRIVE_SCHEME[i] == '/' ==> i == 6 || i == 7
    ensures '=' !in DRIVE_SCHEME && '/' !in DRIVE_HOST && '=' !in DRIVE_HOST
    ensures forall i :: 0 <= i < 23 && DRIVE_DOWNLOAD_PATH[i] == '/' ==> i == 0
    ensures forall i :: 0 <= i < 23 && DRIVE_DOWNLOAD_PATH[i] == '=' ==> i == 10 || i == 22
  {
  }

  /** An occurrence is a run of equal characters. */
  lemma OccursAt(s: string, p: string, j: nat, k: nat)
    requires Occurs(s, p, j) && k < |p|
    ensures s[j + k] == p[k]
  {
    assert s[j..j + |p|][k] == s[j + k];
  }

  /** Leftmost-match search finds `j` when nothing matches before it. */
  lemma {:induction false} SearchFinds(s: string, p: string, from: nat, j: nat)
    requires from <= j && PatternAt(s, p, j)
    requires forall i :: from <= i < j ==> !PatternAt(s, p, i)
    ensures SearchFrom(s, p, from) == Some(j)
    decreases j - from
  {
    if from < j {
      SearchFinds(s, p, from + 1, j);
    }
  }

  /** A direct-download link is a fixed point of the Drive conversion:
      neither '/'-pattern occurs in it, and `id=` captures exactly its id. */
  lemma DirectLinkIsFixedPoint(id: string)
    requires |id| >= 1 && AllIdChars(id)
    ensures DriveFileId(DIRECT_PREFIX + id) == Some(id)
    ensures ConvertGoogleDriveLink(DIRECT_PREFIX + id) == DIRECT_PREFIX + id
  {
    var s := DIRECT_PREFIX + id;
    forall j: nat ensures !PatternAt(s, "/file/d/", j) && !PatternAt(s, "/d/", j) {
      if Occurs(s, "/file/d/", j) {
        OccursAt(s, "/file/d/", j, 0);
        OccursAt(s, "/file/d/", j, 5);
        DirectLinkPunctuation(id, j);
        DirectLinkPunctuation(id, j + 5);
      }
      if Occurs(s, "/d/", j) {
        OccursAt(s, "/d/", j, 0);
        OccursAt(s, "/d/", j, 2);
        DirectLinkPunctuation(id, j);
        DirectLinkPunctuation(id, j + 2);
      }
    }
    forall j: nat | j < 44 ensures !PatternAt(s, "id=", j) {
      if Occurs(s, "id=", j) {
        OccursAt(s, "id=", j, 0);
        OccursAt(s, "id=", j, 2);
        DirectLinkPunctuation(id, j + 2);
      }
    }
    assert s[44..47] == "id=";
    assert s[47] == id[0];
    SearchFinds(s, "id=", 0, 44);
    var e := RunEnd(s, 47);
    assert forall k :: 47 <= k < |s| ==> s[k] == id[k - 47];
    assert e == |s|;
    assert s[47..e] == id;
  }

  /** Converting twice is converting once. */
  lemma ConvertGoogleDriveLinkIdempotent(link: string)
    ensures ConvertGoogleDriveLink(ConvertGoogleDriveLink(link)) == ConvertGoogleDriveLink(link)
  {
    var id := DriveFileId(link);
    if id.Some? {
      DirectLinkIsFixedPoint(id.value);
    }
  }

  /** `convertDropboxLink`: two plain replaces, only on dropbox links. */
  function ConvertDropboxLink(link: string): (r: string)
    // only a Dropbox link with a `dl=0` in it is rewritten
    ensures r != link ==> Includes(link, "dropbox.com") && Includes(link, "dl=0")
  {
    if Includes(link, "dropbox.com") then
      if !Includes(link, "dl=0") then
        NoDlNoQueryDl(link);
        link
      else ReplaceFirst(ReplaceFirst(link, "dl=0", "dl=1"), "?dl=0", "?dl=1")
    else link
  }

  /** A Dropbox link loses its first `dl=0` to `dl=1`, keeps everything
      before it and keeps its length; a link without `dl=0` (or not on
      dropbox.com) comes back unchanged. */
  lemma DropboxRewritesFirstDl(link: string)
    ensures |ConvertDropboxLink(link)| == |link|
    ensures !Includes(link, "dropbox.com") || !Includes(link, "dl=0") ==> ConvertDropboxLink(link) == link
    ensures Includes(link, "dropbox.com") && Includes(link, "dl=0") ==>
              var i := IndexOf(link, "dl=0", 0).value;
              ConvertDropboxLink(link)[..i + 4] == link[..i] + "dl=1"
  {
    if Includes(link, "dropbox.com") {
      var first := IndexOf(link, "dl=0", 0);
      if first.None? {
        NoDlNoQueryDl(link);
      } else {
        FirstReplaceThenSecond(link, first.value);
      }
    }
  }

  /** A link without `dl=0` has no `?dl=0` either. */
  lemma NoDlNoQueryDl(link: string)
    requires IndexOf(link, "dl=0", 0).None?
    ensures IndexOf(link, "?dl=0", 0).None?
  {
    forall j: nat ensures !Occurs(link, "?dl=0", j) {
      if Occurs(link, "?dl=0", j) {
        assert link[j + 1..j + 5] == link[j..j + 5][1..];
        assert Occurs(link, "dl=0", j + 1);
      }
    }
  }

  /** The second replace leaves the first `dl=1` and everything before it
      alone and keeps the length. */
  lemma FirstReplaceThenSecond(link: string, i: nat)
    requires IndexOf(link, "dl=0", 0) == Some(i)
    ensures var m := ReplaceFirst(link, "dl=0", "dl=1");
            var r := ReplaceFirst(m, "?dl=0", "?dl=1");
            |r| == |link| && r[..i + 4] == link[..i] + "dl=1"
  {
    var m := ReplaceFirst(link, "dl=0", "dl=1");
    assert m == link[..i] + "dl=1" + link[i + 4..];
    assert |m| == |link|;
    var second := IndexOf(m, "?dl=0", 0);
    if second.Some? {
      SecondReplaceIsLater(link, m, i, second.value);
    }
  }

  /** After the first replace, the `?dl=0` the second replace finds starts
      past the rewritten `dl=1`. */
  lemma SecondReplaceIsLater(link: string, m: string, i: nat, j: nat)
    requires IndexOf(link, "dl=0", 0) == Some(i)
    requires m == link[..i] + "dl=1" + link[i + 4..]
    requires Occurs(m, "?dl=0", j)
    ensures j >= i + 4
  {
    var front := link[..i] + "dl=1";
    assert m == front + link[i + 4..];
    assert m[i] == 'd' && m[i + 1] == 'l' && m[i + 2] == '=' && m[i + 3] == '1' by {
      assert m[i] == front[i] && m[i + 1] == front[i + 1] && m[i + 2] == front[i + 2] && m[i + 3] == front[i + 3];
    }
    OccursAt(m, "?dl=0", j, 0);
    OccursAt(m, "?dl=0", j, 1);
    OccursAt(m, "?dl=0", j, 2);
    OccursAt(m, "?dl=0", j, 3);
    OccursAt(m, "?dl=0", j, 4);
    forall p | 0 <= p < i ensures m[p] == link[p] {
      assert m[p] == front[p] == link[..i][p];
    }
    WindowBeforeRewrite(link, m, i, j);
  }

  /** A `?dl=0` window of the rewritten link that ends before the rewrite
      shows `dl=0` in the original link one position later. */
  lemma WindowBeforeRewrite(link: string, m: string, i: nat, j: nat)
    requires i <= |link| && i <= |m|
    requires forall p :: 0 <= p < i ==> m[p] == link[p]
    requires Occurs(m, "?dl=0", j)
    ensures j + 4 < i ==> Occurs(link, "dl=0", j + 1)
  {
    if j + 4 < i {
      forall p | j + 1 <= p < j + 5 ensures link[p] == "dl=0"[p - j - 1] {
        OccursAt(m, "?dl=0", j, p - j);
      }
      assert link[j + 1..j + 5] == "dl=0";
    }
  }

  /** `toDirectDownloadLink`: Drive first, then Dropbox, else unchanged. */
  function ToDirectDownloadLink(url: string): (r: string)
    ensures Includes(url, DRIVE_HOST) ==> r == ConvertGoogleDriveLink(url)
    ensures !Includes(url, DRIVE_HOST) && Includes(url, "dropbox.com") ==> r == ConvertDropboxLink(url)
    ensures !Includes(url, DRIVE_HOST) && !Includes(url, "dropbox.com") ==> r == url
    // a link is changed only when it names one of the two hosts
    ensures r != url ==> Includes(url, DRIVE_HOST) || Includes(url, "dropbox.com")
  {
    if Includes(url, DRIVE_HOST) then ConvertGoogleDriveLink(url)
    else if Includes(url, "dropbox.com") then ConvertDropboxLink(url)
    else url
  }

  /** A Drive direct-download link passes through `toDirectDownloadLink`
      unchanged. */
  lemma DirectLinkUnchanged(id: string)
    requires |id| >= 1 && AllIdChars(id)
    ensures ToDirectDownloadLink(DIRECT_PREFIX + id) == DIRECT_PREFIX + id
  {
    var s := DIRECT_PREFIX + id;
    assert s == "https://" + DRIVE_HOST + ("/uc?export=download&id=" + id);
    assert s[8..24] == DRIVE_HOST;
    assert Occurs(s, DRIVE_HOST, 8);
    DirectLinkIsFixedPoint(id);
  }

  /** `/file/d/` occurs in the share-link prefix only at its end. */
  lemma ShareMarkerOnlyAtEnd(j: nat)
    requires j < 24
    ensures SHARE_PREFIX[j..j + 8] != "/file/d/"
  {
    SegmentPunctuation();
    var w := SHARE_PREFIX[j..j + 8];
    assert w[0] == SHARE_PREFIX[j] && w[1] == SHARE_PREFIX[j + 1];
    if j < 8 {
      assert SHARE_PREFIX[j] == DRIVE_SCHEME[j];
      if j == 6 {
        assert SHARE_PREFIX[7] == DRIVE_SCHEME[7];
      } else if j == 7 {
        assert SHARE_PREFIX[8] == DRIVE_HOST[0];
      }
    } else {
      assert SHARE_PREFIX[j] == DRIVE_HOST[j - 8];
    }
  }

  /** The run of id characters from `j` ends at the first position that
      is not one. */
  lemma {:induction false} RunEndIs(s: string, j: nat, e: nat)
    requires j <= e <= |s| && AllIdChars(s[j..e])
    requires e == |s| || !IsIdChar(s[e])
    ensures RunEnd(s, j) == e
    decreases e - j
  {
    if j < e {
      assert s[j..e][0] == s[j];
      assert s[j + 1..e] == s[j..e][1..];
      RunEndIs(s, j + 1, e);
    }
  }

  /** The group `Capture` returns, given the leftmost match and where its
      run of id characters ends. */
  lemma CaptureIs(s: string, p: string, j: nat, e: nat)
    requires PatternAt(s, p, j) && forall i :: 0 <= i < j ==> !PatternAt(s, p, i)
    requires j + |p| <= e <= |s| && AllIdChars(s[j + |p|..e])
    requires e == |s| || !IsIdChar(s[e])
    ensures Capture(s, p) == Some(s[j + |p|..e])
  {
    SearchFinds(s, p, 0, j);
    RunEndIs(s, j + |p|, e);
  }

  /** The share-link format `https://drive.google.com/file/d/<id>/view`
      becomes the direct-download link for the same file id. */
  lemma ShareLinkConverts(id: string)
    requires |id| >= 1 && AllIdChars(id)
    ensures ToDirectDownloadLink(SHARE_PREFIX + id + "/view") == DIRECT_PREFIX + id
  {
    var s := SHARE_PREFIX + id + "/view";
    var end := 32 + |id|;
    assert |SHARE_PREFIX| == 32;
    assert s[..32] == SHARE_PREFIX;
    assert s[8..24] == DRIVE_HOST;
    assert Occurs(s, DRIVE_HOST, 8);
    assert s[24..32] == "/file/d/";
    assert s[32] == id[0];
    forall j: nat | j < 24 ensures !PatternAt(s, "/file/d/", j) {
      ShareMarkerOnlyAtEnd(j);
      assert s[j..j + 8] == SHARE_PREFIX[j..j + 8];
    }
    assert s[32..end] == id;
    assert s[end] == '/';
    CaptureIs(s, "/file/d/", 24, end);
  }
}
