/**
 Building and checking a release bundle (scripts/release/release_manifest.py). SHA-256 is a
 parameter that yields 64 lower-case hex digits, files are strings of single-byte
 characters, and the manifest is the datatype its JSON text stands for.
 */
module ReleaseManifest {
  import opened Wrappers

  const MANIFEST_NAME := "manifest.json"
  const CHECKSUMS_NAME := "SHA256SUMS"
  const MANIFEST_SIGNATURE_NAME := "manifest.json.sig"
  const REQUIRED: set<string> := {MANIFEST_NAME, CHECKSUMS_NAME}
  const OPTIONAL: set<string> := {MANIFEST_SIGNATURE_NAME}

  predicate IsHex(c: char) {
    '0' <= c <= '9' || 'a' <= c <= 'f'
  }

  predicate IsDigest(s: string) {
    |s| == 64 && forall i :: 0 <= i < |s| ==> IsHex(s[i])
  }

  predicate IsNameChar(c: char) {
    'A' <= c <= 'Z' || 'a' <= c <= 'z' || '0' <= c <= '9' || c in {'.', '_', '+', '@', '-'}
  }

  predicate IsFileName(name: string) {
    name != "" && forall i :: 0 <= i < |name| ==> IsNameChar(name[i])
  }

  /** A safe basename that is none of the metadata files. */
  predicate IsArtifactName(name: string) {
    IsFileName(name) && name != "." && name != ".." && name !in REQUIRED && name !in OPTIONAL
  }

  predicate IsRole(role: string) {
    && role != ""
    && ('a' <= role[0] <= 'z' || '0' <= role[0] <= '9')
    && forall i :: 0 <= i < |role| ==>
         'a' <= role[i] <= 'z' || '0' <= role[i] <= '9' || role[i] in {'.', '_', '-'}
  }

  datatype Artifact = Artifact(name: string, role: string, size: nat, sha256: string)

  datatype Package = Package(name: string, version: string, architecture: string) {
    predicate IsFilled() {
      name != "" && version != "" && architecture != ""
    }
  }

  datatype FileRecord = FileRecord(name: string, size: nat, sha256: string)

  datatype Manifest = Manifest(schemaVersion: int, package: Package, checksumFile: FileRecord, artifacts: seq<Artifact>)

  datatype Entry = Regular(content: string) | Other

  /** A bundle directory, and the manifest its `manifest.json` parses to. */
  datatype Bundle = Bundle(files: map<string, Entry>, manifest: Manifest)

  // ---- Names in order ----

  /** Order by code points, as Python compares strings. */
  predicate Less(a: string, b: string) {
    b != "" && (a == "" || a[0] < b[0] || (a[0] == b[0] && Less(a[1..], b[1..])))
  }

  lemma {:induction false} LessIsTotal(a: string, b: string)
    ensures Less(a, b) || Less(b, a) || a == b
    ensures !(Less(a, b) && Less(b, a)) && !Less(a, a)
  {
    if a != "" && b != "" {
      LessIsTotal(a[1..], b[1..]);
      assert a == [a[0]] + a[1..] && b == [b[0]] + b[1..];
    }
    if a != "" { LessIsIrreflexive(a); }
  }

  lemma {:induction false} LessIsIrreflexive(a: string)
    ensures !Less(a, a)
  {
    if a != "" { LessIsIrreflexive(a[1..]); }
  }

  lemma {:induction false} LessIsTransitive(a: string, b: string, c: string)
    requires Less(a, b) && Less(b, c)
    ensures Less(a, c)
  {
    if a != "" && a[0] == b[0] == c[0] {
      LessIsTransitive(a[1..], b[1..], c[1..]);
    }
  }

  /** What equals its own stable sort. */
  predicate InOrder(names: seq<string>) {
    forall i, j :: 0 <= i < j < |names| ==> !Less(names[j], names[i])
  }

  predicate Distinct(names: seq<string>) {
    forall i, j :: 0 <= i < j < |names| ==> names[i] != names[j]
  }

  function NamesOf(artifacts: seq<Artifact>): (names: seq<string>)
    ensures |names| == |artifacts|
  {
    seq(|artifacts|, i requires 0 <= i < |artifacts| => artifacts[i].name)
  }

  function RolesOf(artifacts: seq<Artifact>): (roles: seq<string>)
    ensures |roles| == |artifacts|
  {
    seq(|artifacts|, i requires 0 <= i < |artifacts| => artifacts[i].role)
  }

  function InsertByName(a: Artifact, sorted: seq<Artifact>): seq<Artifact> {
    if sorted == [] then [a]
    else
      var n := |sorted| - 1;
      if Less(a.name, sorted[n].name) then InsertByName(a, sorted[..n]) + [sorted[n]] else sorted + [a]
  }

  function SortByName(artifacts: seq<Artifact>): seq<Artifact> {
    if artifacts == [] then []
    else InsertByName(artifacts[|artifacts| - 1], SortByName(artifacts[..|artifacts| - 1]))
  }

  // ---- The checksum file ----

  function ChecksumLine(a: Artifact): string {
    a.sha256 + "  " + a.name
  }

  function ChecksumText(artifacts: seq<Artifact>): string {
    if artifacts == [] then "" else ChecksumLine(artifacts[0]) + "\n" + ChecksumText(artifacts[1..])
  }

  predicate IsLineEnd(c: char) {
    '\n' <= c <= '\r' || '\U{1C}' <= c <= '\U{1E}' || c == '\U{85}' || c == '\U{2028}' || c == '\U{2029}'
  }

  function LineLength(s: string): (n: nat)
    ensures n <= |s|
  {
    if s == "" || IsLineEnd(s[0]) then 0 else 1 + LineLength(s[1..])
  }

  /** Python's `splitlines`: a carriage return with a line feed is one end. */
  function SplitLines(s: string): seq<string>
    decreases |s|
  {
    if s == "" then []
    else
      var n := LineLength(s);
      if n == |s| then [s]
      else
        var next := if s[n] == '\r' && n + 1 < |s| && s[n + 1] == '\n' then n + 2 else n + 1;
        [s[..n]] + SplitLines(s[next..])
  }

  /** The position of the first pair of blanks. */
  function FindBlanks(s: string): (n: nat)
    ensures n <= |s|
    ensures n < |s| ==> n + 2 <= |s| && s[n] == ' ' && s[n + 1] == ' '
  {
    if |s| < 2 then |s| else if s[0] == ' ' && s[1] == ' ' then 0 else 1 + FindBlanks(s[1..])
  }

  type ChecksumEntry = (string, string)

  function ParseChecksumLine(line: string): Result<ChecksumEntry, string> {
    var n := FindBlanks(line);
    if n == |line| then Err("invalid checksum line")
    else
      var name := line[n + 2..];
      if name == "" || '/' in name || '\\' in name then Err("invalid checksum line")
      else if !IsDigest(line[..n]) then Err("checksum line must be a lowercase SHA-256 digest")
      else Ok((line[..n], name))
  }

  function ParseChecksumLines(lines: seq<string>): Result<seq<ChecksumEntry>, string> {
    if lines == [] then Ok([])
    else
      var n := |lines| - 1;
      var before := ParseChecksumLines(lines[..n]);
      var last := ParseChecksumLine(lines[n]);
      if before.Err? then before else if last.Err? then Err(last.error) else Ok(before.value + [last.value])
  }

  function EntryNames(entries: seq<ChecksumEntry>): (names: seq<string>)
    ensures |names| == |entries|
  {
    seq(|entries|, i requires 0 <= i < |entries| => entries[i].1)
  }

  function ParseChecksums(text: string): Result<seq<ChecksumEntry>, string> {
    var entries := ParseChecksumLines(SplitLines(text));
    if entries.Err? then entries
    else if !InOrder(EntryNames(entries.value)) then Err("checksum entries must be sorted by artifact name")
    else if !Distinct(EntryNames(entries.value)) then Err("checksum entries contain duplicate artifact names")
    else entries
  }

  lemma {:induction false} BadLineFails(lines: seq<string>, n: nat)
    requires n < |lines| && ParseChecksumLines(lines[..n]).Ok? && ParseChecksumLine(lines[n]).Err?
    ensures ParseChecksumLines(lines) == Err(ParseChecksumLine(lines[n]).error)
    decreases |lines|
  {
    var m := |lines| - 1;
    if n < m {
      assert lines[..m][..n] == lines[..n];
      BadLineFails(lines[..m], n);
    }
  }

  function SetOf(names: seq<string>): set<string> {
    set i | 0 <= i < |names| :: names[i]
  }

  lemma SetOfOneMore(names: seq<string>, name: string)
    ensures SetOf(names + [name]) == SetOf(names) + {name}
    ensures Distinct(names + [name]) <==> Distinct(names) && name !in SetOf(names)
  {
    var all := names + [name];
    assert all[|names|] == name && forall i :: 0 <= i < |names| ==> all[i] == names[i];
  }

  lemma {:induction false} DistinctIffAsManyAsTheSet(names: seq<string>)
    ensures |SetOf(names)| <= |names|
    ensures |SetOf(names)| == |names| <==> Distinct(names)
  {
    if names == [] {
      assert SetOf(names) == {};
    } else {
      var n := |names| - 1;
      DistinctIffAsManyAsTheSet(names[..n]);
      SetOfOneMore(names[..n], names[n]);
      assert names[..n] + [names[n]] == names;
    }
  }

  method ParseChecksumFile(text: string) returns (r: Result<seq<ChecksumEntry>, string>)
    ensures r == ParseChecksums(text)
  {
    var lines := SplitLines(text);
    var entries: seq<ChecksumEntry> := [];
    for k := 0 to |lines|
      invariant ParseChecksumLines(lines[..k]) == Ok(entries)
    {
      var line := lines[k];
      assert lines[..k + 1][..k] == lines[..k];
      if ParseChecksumLine(line).Err? {
        BadLineFails(lines, k);
      }
      var n := FindBlanks(line);
      if n == |line| {
        return Err("invalid checksum line");
      }
      var digest, name := line[..n], line[n + 2..];
      if name == "" || '/' in name || '\\' in name {
        return Err("invalid checksum line");
      }
      if !IsDigest(digest) {
        return Err("checksum line must be a lowercase SHA-256 digest");
      }
      entries := entries + [(digest, name)];
    }
    assert lines[..|lines|] == lines;
    if !InOrder(EntryNames(entries)) {
      return Err("checksum entries must be sorted by artifact name");
    }
    var names := SetOf(EntryNames(entries));
    DistinctIffAsManyAsTheSet(EntryNames(entries));
    if |names| != |entries| {
      return Err("checksum entries contain duplicate artifact names");
    }
    return Ok(entries);
  }

  // ---- Printer and parser are inverse ----

  predicate IsPrintable(a: Artifact) {
    IsDigest(a.sha256) && IsFileName(a.name)
  }

  function ChecksumEntries(artifacts: seq<Artifact>): (entries: seq<ChecksumEntry>)
    ensures |entries| == |artifacts|
  {
    seq(|artifacts|, i requires 0 <= i < |artifacts| => (artifacts[i].sha256, artifacts[i].name))
  }

  lemma {:induction false} FindBlanksAfterDigest(digest: string, rest: string)
    requires forall i :: 0 <= i < |digest| ==> digest[i] != ' '
    requires |rest| >= 2 && rest[0] == ' ' && rest[1] == ' '
    ensures FindBlanks(digest + rest) == |digest|
  {
    if digest == "" {
      assert digest + rest == rest;
    } else {
      assert (digest + rest)[1..] == digest[1..] + rest;
      FindBlanksAfterDigest(digest[1..], rest);
    }
  }

  lemma ParseOfChecksumLine(a: Artifact)
    requires IsPrintable(a)
    ensures ParseChecksumLine(ChecksumLine(a)) == Ok((a.sha256, a.name))
  {
    assert ChecksumLine(a) == a.sha256 + ("  " + a.name);
    FindBlanksAfterDigest(a.sha256, "  " + a.name);
    assert ChecksumLine(a)[..64] == a.sha256 && ChecksumLine(a)[66..] == a.name;
  }

  lemma {:induction false} LineLengthOf(line: string, rest: string)
    requires forall i :: 0 <= i < |line| ==> !IsLineEnd(line[i])
    requires rest != "" && IsLineEnd(rest[0])
    ensures LineLength(line + rest) == |line|
  {
    if line == "" {
      assert line + rest == rest;
    } else {
      assert (line + rest)[1..] == line[1..] + rest;
      LineLengthOf(line[1..], rest);
    }
  }

  function ChecksumLines(artifacts: seq<Artifact>): (lines: seq<string>)
    ensures |lines| == |artifacts|
  {
    seq(|artifacts|, i requires 0 <= i < |artifacts| => ChecksumLine(artifacts[i]))
  }

  lemma SplitFirstLine(line: string, rest: string)
    requires forall i :: 0 <= i < |line| ==> !IsLineEnd(line[i])
    ensures SplitLines(line + "\n" + rest) == [line] + SplitLines(rest)
  {
    var text := line + ("\n" + rest);
    LineLengthOf(line, "\n" + rest);
    assert line + "\n" + rest == text;
    assert text[..|line|] == line && text[|line|] == '\n' && text[|line| + 1..] == rest;
  }

  lemma ChecksumLineIsOneLine(a: Artifact)
    requires IsPrintable(a)
    ensures forall i :: 0 <= i < |ChecksumLine(a)| ==> !IsLineEnd(ChecksumLine(a)[i])
  {
  }

  lemma {:induction false} SplitOfChecksumText(artifacts: seq<Artifact>)
    requires forall i :: 0 <= i < |artifacts| ==> IsPrintable(artifacts[i])
    ensures SplitLines(ChecksumText(artifacts)) == ChecksumLines(artifacts)
  {
    if artifacts != [] {
      ChecksumLineIsOneLine(artifacts[0]);
      SplitOfChecksumText(artifacts[1..]);
      SplitFirstLine(ChecksumLine(artifacts[0]), ChecksumText(artifacts[1..]));
      assert ChecksumText(artifacts) == ChecksumLine(artifacts[0]) + "\n" + ChecksumText(artifacts[1..]);
      assert ChecksumLines(artifacts) == [ChecksumLine(artifacts[0])] + ChecksumLines(artifacts[1..]);
    }
  }

  lemma {:induction false} ParseOfChecksumLines(artifacts: seq<Artifact>)
    requires forall i :: 0 <= i < |artifacts| ==> IsPrintable(artifacts[i])
    ensures ParseChecksumLines(ChecksumLines(artifacts)) == Ok(ChecksumEntries(artifacts))
  {
    if artifacts != [] {
      var n := |artifacts| - 1;
      ParseOfChecksumLines(artifacts[..n]);
      ParseOfChecksumLine(artifacts[n]);
      assert ChecksumLines(artifacts)[..n] == ChecksumLines(artifacts[..n]);
      assert ChecksumEntries(artifacts) == ChecksumEntries(artifacts[..n]) + [(artifacts[n].sha256, artifacts[n].name)];
    }
  }

  /** The parser gives back every admitted list it is printed from, and no list out of order or with a name twice. */
  lemma ParseOfPrinted(artifacts: seq<Artifact>)
    requires forall i :: 0 <= i < |artifacts| ==> IsPrintable(artifacts[i])
    ensures ParseChecksums(ChecksumText(artifacts)).Ok? <==> InOrder(NamesOf(artifacts)) && Distinct(NamesOf(artifacts))
    ensures ParseChecksums(ChecksumText(artifacts)).Ok? ==>
              ParseChecksums(ChecksumText(artifacts)).value == ChecksumEntries(artifacts)
  {
    SplitOfChecksumText(artifacts);
    ParseOfChecksumLines(artifacts);
    assert EntryNames(ChecksumEntries(artifacts)) == NamesOf(artifacts);
  }

  /** A line is accepted exactly if it is a digest, two blanks and a name without a slash or backslash. */
  lemma LineParsesIffItIsADigestAndAName(line: string, digest: string, name: string)
    ensures ParseChecksumLine(line) == Ok((digest, name)) <==>
            line == digest + "  " + name && IsDigest(digest) && name != "" && '/' !in name && '\\' !in name
  {
    var n := FindBlanks(line);
    if ParseChecksumLine(line) == Ok((digest, name)) {
      assert line == line[..n] + [line[n], line[n + 1]] + line[n + 2..];
    }
    if line == digest + "  " + name && IsDigest(digest) {
      assert line == digest + ("  " + name);
      FindBlanksAfterDigest(digest, "  " + name);
      assert line[..64] == digest && line[66..] == name;
    }
  }

  /** The lines are these entries, one each. */
  ghost predicate AreLinesOf(lines: seq<string>, entries: seq<ChecksumEntry>) {
    && |lines| == |entries|
    && forall i :: 0 <= i < |lines| ==> ParseChecksumLine(lines[i]) == Ok(entries[i])
  }

  lemma {:induction false} LinesParseIffEachDoes(lines: seq<string>, entries: seq<ChecksumEntry>)
    ensures ParseChecksumLines(lines) == Ok(entries) <==> AreLinesOf(lines, entries)
  {
    if lines != [] {
      var n := |lines| - 1;
      if entries != [] {
        LinesParseIffEachDoes(lines[..n], entries[..|entries| - 1]);
        assert entries == entries[..|entries| - 1] + [entries[|entries| - 1]];
      }
    }
  }

  /** A checksum file is accepted exactly if each line is one entry and the names strictly increase. */
  lemma FileParsesIffItIsASortedList(text: string, entries: seq<ChecksumEntry>)
    ensures ParseChecksums(text) == Ok(entries) <==>
            && AreLinesOf(SplitLines(text), entries)
            && forall i, j :: 0 <= i < j < |entries| ==> Less(entries[i].1, entries[j].1)
  {
    LinesParseIffEachDoes(SplitLines(text), entries);
    StrictlyIncreasingIffInOrderAndDistinct(EntryNames(entries));
    assert forall i :: 0 <= i < |entries| ==> EntryNames(entries)[i] == entries[i].1;
  }

  lemma StrictlyIncreasingIffInOrderAndDistinct(names: seq<string>)
    ensures InOrder(names) && Distinct(names) <==>
            forall i, j :: 0 <= i < j < |names| ==> Less(names[i], names[j])
  {
    forall i, j | 0 <= i < j < |names|
      ensures Less(names[i], names[j]) <==> !Less(names[j], names[i]) && names[i] != names[j]
    {
      LessIsTotal(names[i], names[j]);
    }
  }

  // ---- Verifying ----

  predicate Holds(sha: string -> string, files: map<string, Entry>, name: string, size: nat, digest: string) {
    name in files && files[name].Regular? && |files[name].content| == size && sha(files[name].content) == digest
  }

  predicate IsArtifact(a: Artifact) {
    IsArtifactName(a.name) && IsRole(a.role) && IsDigest(a.sha256)
  }

  predicate PinsItsArtifacts(sha: string -> string, b: Bundle) {
    forall i :: 0 <= i < |b.manifest.artifacts| ==>
      var a := b.manifest.artifacts[i];
      IsArtifact(a) && Holds(sha, b.files, a.name, a.size, a.sha256)
  }

  predicate IsInventoried(b: Bundle) {
    && (forall name :: name in b.files ==> b.files[name].Regular?)
    && b.files.Keys == ArtifactNames(b.manifest.artifacts) + REQUIRED + b.files.Keys * OPTIONAL
  }

  function ArtifactNames(artifacts: seq<Artifact>): set<string> {
    set i | 0 <= i < |artifacts| :: artifacts[i].name
  }

  function ArtifactRoles(artifacts: seq<Artifact>): set<string> {
    set i | 0 <= i < |artifacts| :: artifacts[i].role
  }

  /** What it is for a bundle to be consistent with its manifest. */
  predicate Verified(sha: string -> string, b: Bundle) {
    var m := b.manifest;
    && m.schemaVersion == 1 && m.package.IsFilled()
    && MANIFEST_NAME in b.files && b.files[MANIFEST_NAME].Regular?
    && m.checksumFile.name == CHECKSUMS_NAME && IsDigest(m.checksumFile.sha256)
    && Holds(sha, b.files, CHECKSUMS_NAME, m.checksumFile.size, m.checksumFile.sha256)
    && m.artifacts != [] && PinsItsArtifacts(sha, b)
    && Distinct(NamesOf(m.artifacts)) && Distinct(RolesOf(m.artifacts)) && InOrder(NamesOf(m.artifacts))
    && ParseChecksums(b.files[CHECKSUMS_NAME].content) == Ok(ChecksumEntries(m.artifacts))
    && IsInventoried(b)
  }

  method CheckArtifacts(artifacts: seq<Artifact>) returns (r: Result<set<string>, string>)
    ensures r.Ok? <==>
            && (forall i :: 0 <= i < |artifacts| ==> IsArtifact(artifacts[i]))
            && Distinct(NamesOf(artifacts)) && Distinct(RolesOf(artifacts))
    ensures r.Ok? ==> r.value == ArtifactNames(artifacts)
  {
    var names: set<string> := {};
    var roles: set<string> := {};
    for n := 0 to |artifacts|
      invariant names == ArtifactNames(artifacts[..n]) && roles == ArtifactRoles(artifacts[..n])
      invariant forall i :: 0 <= i < n ==> IsArtifact(artifacts[i])
      invariant forall i, j :: 0 <= i < j < n ==>
                  NamesOf(artifacts)[i] != NamesOf(artifacts)[j] && RolesOf(artifacts)[i] != RolesOf(artifacts)[j]
    {
      var a := artifacts[n];
      assert NamesOf(artifacts)[n] == a.name && RolesOf(artifacts)[n] == a.role;
      if !IsArtifactName(a.name) {
        return Err("invalid artifact name");
      }
      if a.name in names {
        var i :| 0 <= i < n && artifacts[..n][i].name == a.name;
        assert NamesOf(artifacts)[i] == a.name;
        return Err("duplicate manifest artifact");
      }
      names := names + {a.name};
      if !IsRole(a.role) {
        return Err("invalid artifact role");
      }
      if a.role in roles {
        var i :| 0 <= i < n && artifacts[..n][i].role == a.role;
        assert RolesOf(artifacts)[i] == a.role;
        return Err("duplicate manifest artifact role");
      }
      roles := roles + {a.role};
      if !IsDigest(a.sha256) {
        return Err("artifact digest must be a lowercase SHA-256 digest");
      }
      forall i | 0 <= i < n
        ensures NamesOf(artifacts)[i] != a.name && RolesOf(artifacts)[i] != a.role
      {
        assert artifacts[..n][i] == artifacts[i];
      }
      assert forall i :: 0 <= i < n ==> artifacts[..n + 1][i] == artifacts[..n][i];
      assert artifacts[..n + 1][n] == a;
    }
    assert artifacts[..|artifacts|] == artifacts;
    return Ok(names);
  }

  /** The verifier accepts exactly the consistent bundles. */
  method VerifyBundle(sha: string -> string, b: Bundle) returns (r: Result<(), string>)
    ensures r.Ok? <==> Verified(sha, b)
  {
    var m := b.manifest;
    if MANIFEST_NAME !in b.files || !b.files[MANIFEST_NAME].Regular? {
      return Err("manifest is missing");
    }
    if m.schemaVersion != 1 {
      return Err("unsupported manifest schema");
    }
    if m.package.name == "" || m.package.version == "" || m.package.architecture == "" {
      return Err("package field must be a non-empty string");
    }
    if m.checksumFile.name != CHECKSUMS_NAME {
      return Err("checksum_file.name must be SHA256SUMS");
    }
    if !IsDigest(m.checksumFile.sha256) {
      return Err("checksum_file.sha256 must be a lowercase SHA-256 digest");
    }
    if !Holds(sha, b.files, CHECKSUMS_NAME, m.checksumFile.size, m.checksumFile.sha256) {
      return Err("checksum file mismatch");
    }
    if m.artifacts == [] {
      return Err("artifacts must be a non-empty array");
    }
    var checked := CheckArtifacts(m.artifacts);
    if checked.Err? {
      return Err(checked.error);
    }
    if !InOrder(NamesOf(m.artifacts)) {
      return Err("manifest artifacts must be sorted by name");
    }
    var entries := ParseChecksumFile(b.files[CHECKSUMS_NAME].content);
    if entries.Err? {
      return Err(entries.error);
    }
    if entries.value != ChecksumEntries(m.artifacts) {
      return Err("SHA256SUMS does not exactly match manifest artifacts");
    }
    for n := 0 to |m.artifacts|
      invariant forall i :: 0 <= i < n ==>
                  Holds(sha, b.files, m.artifacts[i].name, m.artifacts[i].size, m.artifacts[i].sha256)
    {
      var a := m.artifacts[n];
      if !Holds(sha, b.files, a.name, a.size, a.sha256) {
        return Err("artifact is missing or does not match");
      }
    }
    if !(forall name :: name in b.files ==> b.files[name].Regular?) {
      return Err("release bundle contains a non-regular entry");
    }
    var actual := b.files.Keys;
    if actual != checked.value + REQUIRED + actual * OPTIONAL {
      return Err("release bundle inventory mismatch");
    }
    return Ok(());
  }

  predicate Collide(sha: string -> string, x: string, y: string) {
    x != y && |x| == |y| && sha(x) == sha(y)
  }

  /**
   The manifest pins the bundle: two verified bundles with the same manifest hold the same
   files, but for the manifest's own text and a signature, unless two of their files of one
   size collide.
   */
  lemma SameManifestSameArtifacts(sha: string -> string, a: Bundle, b: Bundle, name: string)
    requires Verified(sha, a) && Verified(sha, b) && a.manifest == b.manifest
    requires name in a.files && name != MANIFEST_NAME && name !in OPTIONAL
    ensures name in b.files && a.files[name].Regular? && b.files[name].Regular?
    ensures a.files[name] == b.files[name] || Collide(sha, a.files[name].content, b.files[name].content)
  {
    if name != CHECKSUMS_NAME {
      assert name in ArtifactNames(a.manifest.artifacts);
      var i :| 0 <= i < |a.manifest.artifacts| && a.manifest.artifacts[i].name == name;
      assert Holds(sha, a.files, name, a.manifest.artifacts[i].size, a.manifest.artifacts[i].sha256);
      assert Holds(sha, b.files, name, a.manifest.artifacts[i].size, a.manifest.artifacts[i].sha256);
    }
  }

  /** The checksum file lists this name with the digest of the file of that name. */
  ghost predicate ListsItsDigest(sha: string -> string, b: Bundle, entries: seq<ChecksumEntry>, name: string)
    requires name in b.files && b.files[name].Regular?
  {
    exists i :: 0 <= i < |entries| && entries[i] == (sha(b.files[name].content), name)
  }

  /**
   SHA256SUMS of a verified bundle lists every file but the metadata, each with its true digest,
   and nothing else.
   */
  lemma ChecksumsListTheTrueDigests(sha: string -> string, b: Bundle)
    requires Verified(sha, b)
    ensures CHECKSUMS_NAME in b.files && b.files[CHECKSUMS_NAME].Regular?
    ensures var entries := ParseChecksums(b.files[CHECKSUMS_NAME].content);
            && entries.Ok?
            && (forall name :: name in b.files && name !in REQUIRED && name !in OPTIONAL ==>
                  b.files[name].Regular? && ListsItsDigest(sha, b, entries.value, name))
            && (forall i :: 0 <= i < |entries.value| ==>
                  var name := entries.value[i].1;
                  && name in b.files && name !in REQUIRED && name !in OPTIONAL && b.files[name].Regular?
                  && entries.value[i].0 == sha(b.files[name].content))
  {
    var artifacts := b.manifest.artifacts;
    var entries := ChecksumEntries(artifacts);
    forall name | name in b.files && name !in REQUIRED && name !in OPTIONAL
      ensures b.files[name].Regular? && ListsItsDigest(sha, b, entries, name)
    {
      assert name in ArtifactNames(artifacts);
      var i :| 0 <= i < |artifacts| && artifacts[i].name == name;
      assert Holds(sha, b.files, name, artifacts[i].size, artifacts[i].sha256);
      assert entries[i] == (sha(b.files[name].content), name);
    }
    forall i | 0 <= i < |entries|
      ensures var name := entries[i].1;
              && name in b.files && name !in REQUIRED && name !in OPTIONAL && b.files[name].Regular?
              && entries[i].0 == sha(b.files[name].content)
    {
      assert IsArtifact(artifacts[i])
          && Holds(sha, b.files, artifacts[i].name, artifacts[i].size, artifacts[i].sha256);
    }
  }

  /** The two hold the same files, but for the manifest's own text and a signature. */
  ghost predicate SameFiles(a: Bundle, b: Bundle) {
    forall name :: name != MANIFEST_NAME && name !in OPTIONAL ==>
      && (name in a.files <==> name in b.files)
      && (name in a.files ==> a.files[name] == b.files[name])
  }

  /** The manifest without the roles. */
  predicate SameButRoles(a: Manifest, b: Manifest) {
    && a.schemaVersion == b.schemaVersion && a.checksumFile == b.checksumFile
    && |a.artifacts| == |b.artifacts|
    && forall i :: 0 <= i < |a.artifacts| ==> a.artifacts[i] == b.artifacts[i].(role := a.artifacts[i].role)
  }

  /** Conversely the files determine the manifest, up to the package and the roles. */
  lemma SameFilesSameManifest(sha: string -> string, a: Bundle, b: Bundle)
    requires Verified(sha, a) && Verified(sha, b) && SameFiles(a, b)
    ensures SameButRoles(a.manifest, b.manifest)
  {
    var left, right := a.manifest.artifacts, b.manifest.artifacts;
    assert a.files[CHECKSUMS_NAME] == b.files[CHECKSUMS_NAME];
    assert ChecksumEntries(left) == ChecksumEntries(right);
    assert |ChecksumEntries(left)| == |left| && |ChecksumEntries(right)| == |right|;
    forall i | 0 <= i < |left|
      ensures left[i] == right[i].(role := left[i].role)
    {
      assert ChecksumEntries(left)[i] == ChecksumEntries(right)[i];
      assert IsArtifact(left[i]) && Holds(sha, a.files, left[i].name, left[i].size, left[i].sha256);
      assert Holds(sha, b.files, right[i].name, right[i].size, right[i].sha256);
    }
  }

  /** And no role, name or package field of a verified bundle is empty, and no role or name is used twice. */
  lemma NamesAndRolesAreUsable(sha: string -> string, b: Bundle, i: nat, j: nat)
    requires Verified(sha, b) && i < j < |b.manifest.artifacts|
    ensures var x, y := b.manifest.artifacts[i], b.manifest.artifacts[j];
            && Less(x.name, y.name) && x.role != y.role
            && IsArtifactName(x.name) && IsArtifactName(y.name) && IsRole(x.role) && IsRole(y.role)
  {
    var names, roles := NamesOf(b.manifest.artifacts), RolesOf(b.manifest.artifacts);
    assert names[i] != names[j] && roles[i] != roles[j] && !Less(names[j], names[i]);
    LessIsTotal(names[i], names[j]);
    assert IsArtifact(b.manifest.artifacts[i]) && IsArtifact(b.manifest.artifacts[j]);
  }

  // ---- Assembling ----

  datatype Source = Source(role: string, name: string, content: string)

  /** What `assemble` asks of its artifacts; the role pattern is checked when arguments are parsed. */
  predicate Admitted(sources: seq<Source>) {
    && (forall i :: 0 <= i < |sources| ==> IsRole(sources[i].role) && IsArtifactName(sources[i].name))
    && (forall i, j :: 0 <= i < j < |sources| ==>
          sources[i].name != sources[j].name && sources[i].role != sources[j].role)
  }

  function SourceNames(sources: seq<Source>): set<string> {
    set i | 0 <= i < |sources| :: sources[i].name
  }

  ghost predicate YieldsDigests(sha: string -> string) {
    forall x :: IsDigest(sha(x))
  }

  function Record(sha: string -> string, s: Source): Artifact {
    Artifact(s.name, s.role, |s.content|, sha(s.content))
  }

  function Records(sha: string -> string, sources: seq<Source>): seq<Artifact> {
    seq(|sources|, i requires 0 <= i < |sources| => Record(sha, sources[i]))
  }

  /** The directory after the artifacts are copied in. */
  function Copied(sources: seq<Source>): map<string, Entry> {
    if sources == [] then map[]
    else
      var n := |sources| - 1;
      Copied(sources[..n])[sources[n].name := Regular(sources[n].content)]
  }

  function Staging(sha: string -> string, package: Package, sources: seq<Source>, json: Manifest -> string): Bundle {
    var artifacts := SortByName(Records(sha, sources));
    var text := ChecksumText(artifacts);
    var manifest := Manifest(1, package, FileRecord(CHECKSUMS_NAME, |text|, sha(text)), artifacts);
    Bundle(Copied(sources)[CHECKSUMS_NAME := Regular(text)][MANIFEST_NAME := Regular(json(manifest))], manifest)
  }

  lemma {:induction false} InsertKeepsMembers(a: Artifact, sorted: seq<Artifact>)
    ensures forall x :: x in InsertByName(a, sorted) <==> x == a || x in sorted
    ensures |InsertByName(a, sorted)| == |sorted| + 1
  {
    if sorted != [] {
      var n := |sorted| - 1;
      InsertKeepsMembers(a, sorted[..n]);
      assert sorted == sorted[..n] + [sorted[n]];
    }
  }

  lemma {:induction false} SortKeepsMembers(artifacts: seq<Artifact>)
    ensures forall x :: x in SortByName(artifacts) <==> x in artifacts
    ensures |SortByName(artifacts)| == |artifacts|
  {
    if artifacts != [] {
      var n := |artifacts| - 1;
      SortKeepsMembers(artifacts[..n]);
      InsertKeepsMembers(artifacts[n], SortByName(artifacts[..n]));
      assert artifacts == artifacts[..n] + [artifacts[n]];
    }
  }

  /** Strictly increasing names: in order, and none twice. */
  ghost predicate Ascending(artifacts: seq<Artifact>) {
    forall i, j :: 0 <= i < j < |artifacts| ==> Less(artifacts[i].name, artifacts[j].name)
  }

  lemma {:induction false} InsertKeepsAscending(a: Artifact, sorted: seq<Artifact>)
    requires Ascending(sorted) && forall i :: 0 <= i < |sorted| ==> sorted[i].name != a.name
    ensures Ascending(InsertByName(a, sorted))
  {
    if sorted != [] {
      var n := |sorted| - 1;
      LessIsTotal(a.name, sorted[n].name);
      if Less(a.name, sorted[n].name) {
        InsertKeepsAscending(a, sorted[..n]);
        InsertKeepsMembers(a, sorted[..n]);
        var inserted := InsertByName(a, sorted[..n]);
        forall i | 0 <= i < |inserted|
          ensures Less(inserted[i].name, sorted[n].name)
        {
          assert inserted[i] in inserted;
        }
      } else {
        forall i | 0 <= i < n
          ensures Less(sorted[i].name, a.name)
        {
          LessIsTransitive(sorted[i].name, sorted[n].name, a.name);
        }
      }
    }
  }

  lemma {:induction false} SortAscends(artifacts: seq<Artifact>)
    requires Distinct(NamesOf(artifacts))
    ensures Ascending(SortByName(artifacts))
  {
    if artifacts != [] {
      var n := |artifacts| - 1;
      var sorted := SortByName(artifacts[..n]);
      assert forall i :: 0 <= i < n ==> NamesOf(artifacts[..n])[i] == NamesOf(artifacts)[i];
      SortAscends(artifacts[..n]);
      SortKeepsMembers(artifacts[..n]);
      forall i | 0 <= i < |sorted|
        ensures sorted[i].name != artifacts[n].name
      {
        assert sorted[i] in sorted;
        var k :| 0 <= k < n && artifacts[..n][k] == sorted[i];
        assert NamesOf(artifacts)[k] != NamesOf(artifacts)[n];
      }
      InsertKeepsAscending(artifacts[n], sorted);
    }
  }

  lemma AscendingIsInOrderAndDistinct(artifacts: seq<Artifact>)
    requires Ascending(artifacts)
    ensures InOrder(NamesOf(artifacts)) && Distinct(NamesOf(artifacts))
  {
    forall i, j | 0 <= i < j < |artifacts|
      ensures !Less(artifacts[j].name, artifacts[i].name) && artifacts[i].name != artifacts[j].name
    {
      LessIsTotal(artifacts[i].name, artifacts[j].name);
    }
  }

  predicate HasCopy(files: map<string, Entry>, s: Source) {
    s.name in files && files[s.name] == Regular(s.content)
  }

  lemma {:induction false} CopiedNames(sources: seq<Source>)
    ensures Copied(sources).Keys == SourceNames(sources)
    ensures forall name :: name in Copied(sources) ==> Copied(sources)[name].Regular?
  {
    if sources != [] {
      var n := |sources| - 1;
      CopiedNames(sources[..n]);
      assert SourceNames(sources) == SourceNames(sources[..n]) + {sources[n].name} by {
        assert forall i :: 0 <= i < n ==> sources[..n][i] == sources[i];
      }
    }
  }

  lemma {:induction false} LastCopyStays(sources: seq<Source>, i: nat)
    requires i < |sources| && forall j :: i < j < |sources| ==> sources[j].name != sources[i].name
    ensures HasCopy(Copied(sources), sources[i])
  {
    var n := |sources| - 1;
    if i < n {
      LastCopyStays(sources[..n], i);
    }
  }

  ghost predicate IsRecorded(sha: string -> string, a: Artifact, sources: seq<Source>) {
    exists i :: 0 <= i < |sources| && a == Record(sha, sources[i])
  }

  ghost predicate AreRecorded(sha: string -> string, artifacts: seq<Artifact>, sources: seq<Source>) {
    forall k :: 0 <= k < |artifacts| ==> IsRecorded(sha, artifacts[k], sources)
  }

  /** Every artifact of the sorted list is the record of a source, and every source has one. */
  lemma SortedRecordsAreTheSources(sha: string -> string, sources: seq<Source>)
    ensures var artifacts := SortByName(Records(sha, sources));
            |artifacts| == |sources| && AreRecorded(sha, artifacts, sources)
    ensures ArtifactNames(SortByName(Records(sha, sources))) == SourceNames(sources)
  {
    var records := Records(sha, sources);
    var artifacts := SortByName(records);
    SortKeepsMembers(records);
    forall k | 0 <= k < |artifacts|
      ensures IsRecorded(sha, artifacts[k], sources)
      ensures artifacts[k].name in SourceNames(sources)
    {
      assert artifacts[k] in artifacts;
      var i :| 0 <= i < |records| && records[i] == artifacts[k];
    }
    forall i | 0 <= i < |sources|
      ensures sources[i].name in ArtifactNames(artifacts)
    {
      assert records[i] in records && records[i] in artifacts;
    }
  }

  lemma SortedRecordsAscend(sha: string -> string, sources: seq<Source>)
    requires Admitted(sources)
    ensures Ascending(SortByName(Records(sha, sources)))
  {
    SortAscends(Records(sha, sources));
  }

  lemma RecordedRolesAreDistinct(sha: string -> string, artifacts: seq<Artifact>, sources: seq<Source>)
    requires Admitted(sources) && AreRecorded(sha, artifacts, sources) && Ascending(artifacts)
    ensures Distinct(RolesOf(artifacts))
  {
    forall k, l | 0 <= k < l < |artifacts|
      ensures artifacts[k].role != artifacts[l].role
    {
      assert IsRecorded(sha, artifacts[k], sources) && IsRecorded(sha, artifacts[l], sources);
      LessIsTotal(artifacts[k].name, artifacts[l].name);
    }
  }

  lemma RecordedArtifactsHold(
    sha: string -> string, artifacts: seq<Artifact>, sources: seq<Source>, files: map<string, Entry>)
    requires YieldsDigests(sha) && Admitted(sources) && AreRecorded(sha, artifacts, sources)
    requires forall i :: 0 <= i < |sources| ==> HasCopy(files, sources[i])
    ensures forall k :: 0 <= k < |artifacts| ==>
              IsArtifact(artifacts[k]) && Holds(sha, files, artifacts[k].name, artifacts[k].size, artifacts[k].sha256)
  {
    forall k | 0 <= k < |artifacts|
      ensures IsArtifact(artifacts[k]) && Holds(sha, files, artifacts[k].name, artifacts[k].size, artifacts[k].sha256)
    {
      assert IsRecorded(sha, artifacts[k], sources);
      var i :| 0 <= i < |sources| && artifacts[k] == Record(sha, sources[i]);
      assert HasCopy(files, sources[i]);
    }
  }

  lemma StagingFiles(sha: string -> string, package: Package, sources: seq<Source>, json: Manifest -> string)
    requires Admitted(sources)
    ensures var files := Staging(sha, package, sources, json).files;
            && files.Keys == SourceNames(sources) + REQUIRED
            && (forall name :: name in files ==> files[name].Regular?)
            && files[CHECKSUMS_NAME] == Regular(ChecksumText(SortByName(Records(sha, sources))))
            && forall i :: 0 <= i < |sources| ==> HasCopy(files, sources[i])
  {
    CopiedNames(sources);
    forall i | 0 <= i < |sources|
      ensures HasCopy(Staging(sha, package, sources, json).files, sources[i])
    {
      LastCopyStays(sources, i);
    }
  }

  lemma StagingHolds(sha: string -> string, package: Package, sources: seq<Source>, json: Manifest -> string)
    requires YieldsDigests(sha) && Admitted(sources)
    ensures var b := Staging(sha, package, sources, json);
            PinsItsArtifacts(sha, b) && IsInventoried(b)
  {
    var b := Staging(sha, package, sources, json);
    SortedRecordsAreTheSources(sha, sources);
    StagingFiles(sha, package, sources, json);
    RecordedArtifactsHold(sha, b.manifest.artifacts, sources, b.files);
    assert forall name :: name in SourceNames(sources) ==> name !in OPTIONAL;
  }

  lemma StagingIsOrdered(sha: string -> string, sources: seq<Source>)
    requires YieldsDigests(sha) && Admitted(sources)
    ensures var artifacts := SortByName(Records(sha, sources));
            && |artifacts| == |sources|
            && Distinct(NamesOf(artifacts)) && Distinct(RolesOf(artifacts)) && InOrder(NamesOf(artifacts))
            && ParseChecksums(ChecksumText(artifacts)) == Ok(ChecksumEntries(artifacts))
  {
    var artifacts := SortByName(Records(sha, sources));
    SortedRecordsAreTheSources(sha, sources);
    SortedRecordsAscend(sha, sources);
    AscendingIsInOrderAndDistinct(artifacts);
    RecordedRolesAreDistinct(sha, artifacts, sources);
    assert forall k :: 0 <= k < |artifacts| ==> IsRecorded(sha, artifacts[k], sources);
    ParseOfPrinted(artifacts);
  }

  /** The self-check of a freshly built bundle fails exactly on an empty artifact list or an empty package field. */
  lemma StagingVerifiesIffFilled(
    sha: string -> string, package: Package, sources: seq<Source>, json: Manifest -> string)
    requires YieldsDigests(sha) && Admitted(sources)
    ensures Verified(sha, Staging(sha, package, sources, json)) <==>
            sources != [] && package.name != "" && package.version != "" && package.architecture != ""
  {
    StagingHolds(sha, package, sources, json);
    StagingIsOrdered(sha, sources);
    StagingFiles(sha, package, sources, json);
  }

  method CheckSources(sources: seq<Source>) returns (r: Result<(), string>)
    requires forall i :: 0 <= i < |sources| ==> IsRole(sources[i].role)
    ensures r.Ok? <==> Admitted(sources)
  {
    var names: set<string> := {};
    var roles: set<string> := {};
    for n := 0 to |sources|
      invariant Admitted(sources[..n])
      invariant names == SourceNames(sources[..n])
      invariant roles == set i | 0 <= i < n :: sources[i].role
    {
      var source := sources[n];
      if !IsFileName(source.name) || source.name == "." || source.name == ".." {
        return Err("artifact basename is unsafe");
      }
      if source.name in REQUIRED + OPTIONAL {
        return Err("artifact name is reserved");
      }
      if source.name in names {
        return Err("duplicate artifact basename");
      }
      if source.role in roles {
        return Err("duplicate artifact role");
      }
      names := names + {source.name};
      roles := roles + {source.role};
    }
    assert sources[..|sources|] == sources;
    return Ok(());
  }

  /** Roles are checked when arguments are parsed; everything else `assemble` and its self-check refuse. */
  method Assemble(sha: string -> string, package: Package, sources: seq<Source>, json: Manifest -> string)
      returns (r: Result<Bundle, string>)
    requires YieldsDigests(sha) && forall i :: 0 <= i < |sources| ==> IsRole(sources[i].role)
    ensures r.Ok? <==> Admitted(sources) && sources != [] && package.IsFilled()
    ensures r.Ok? ==> r.value == Staging(sha, package, sources, json) && Verified(sha, r.value)
  {
    var checked := CheckSources(sources);
    if checked.Err? {
      return Err(checked.error);
    }
    var files: map<string, Entry> := map[];
    for n := 0 to |sources|
      invariant files == Copied(sources[..n])
    {
      assert sources[..n + 1][..n] == sources[..n];
      files := files[sources[n].name := Regular(sources[n].content)];
    }
    assert sources[..|sources|] == sources;
    var artifacts := SortByName(Records(sha, sources));
    var text := ChecksumText(artifacts);
    files := files[CHECKSUMS_NAME := Regular(text)];
    var manifest := Manifest(1, package, FileRecord(CHECKSUMS_NAME, |text|, sha(text)), artifacts);
    files := files[MANIFEST_NAME := Regular(json(manifest))];
    var staging := Bundle(files, manifest);
    StagingVerifiesIffFilled(sha, package, sources, json);
    var verified := VerifyBundle(sha, staging);
    if verified.Err? {
      return Err(verified.error);
    }
    return Ok(staging);
  }
}
