/** `scripts/release/evidence_bundle.py`: a release bundle is built file by file, sealed with
    `SHA256SUMS`, and verified later against a checkout of the release. */
module EvidenceBundle {
  import opened Text
  import opened Wrappers

  type Bytes = seq<bv8>

  /** Where a link leads: to a file, to nothing yet, or to something that is no file. */
  datatype Target = ToFile(bytes: Bytes) | ToNothing | ToOther

  /** What a name in a directory stands for. */
  datatype Entry = File(content: Bytes) | Symlink(target: Target) | Folder

  type Directory = map<string, Entry>

  // ----- The documents in a bundle

  datatype Manifest = Manifest(schema: string, version: string, commit: string)

  /** `commit` and `version` are the metadata, absent when malformed. */
  datatype Bom = Bom(commit: Option<string>, version: Option<string>, components: seq<Component>)

  datatype Component = Component(name: string, fromVersions: bool)

  datatype Counts = Counts(workloads: int, customResources: int, images: int, storageAssets: int)

  datatype Assets = Assets(charts: seq<string>, profiles: seq<string>, workloads: seq<string>,
                           customResources: seq<string>, images: seq<string>, storage: seq<string>, summary: Counts)

  /** What a JSON text stands for. */
  datatype Document =
    | ManifestDoc(manifest: Manifest)
    | BomDoc(bom: Bom)
    | LicensesDoc(licenses: seq<string>)
    | AssetsDoc(assets: Assets)
    | OtherDoc

  /** The code that is not modelled: SHA-256, UTF-8, JSON and the generators of the documents. */
  datatype Tools = Tools(
    digest: Bytes -> string,
    encode: string -> Bytes,
    decode: Bytes -> Option<string>,
    dump: Document -> string,
    load: string -> Option<Document>,
    validBom: Bom -> bool,
    renderLicenses: seq<string> -> string,
    renderAssets: Assets -> Option<string>,
    charts: seq<string>,
    profiles: seq<string>)

  predicate IsHex(c: char) { IsDigit(c) || 'a' <= c <= 'f' }

  predicate HexOnly(s: string) { forall i | 0 <= i < |s| :: IsHex(s[i]) }

  predicate IsDigest(s: string) { |s| == 64 && HexOnly(s) }

  /** Decoding undoes encoding, parsing undoes printing, JSON text holds no raw carriage return, and a
      digest is 64 hexadecimal digits. */
  ghost predicate Faithful(t: Tools) {
    && (forall s: string :: t.decode(t.encode(s)) == Some(s))
    && (forall d: Document :: t.load(t.dump(d)) == Some(d) && '\r' !in t.dump(d))
    && (forall b: Bytes :: IsDigest(t.digest(b)))
  }

  ghost predicate Injective(t: Tools) { forall a: Bytes, b: Bytes :: t.digest(a) == t.digest(b) ==> a == b }

  // ----- Names

  datatype Part = License | Notice | ManifestJson | AssetJson | AssetMd | LicensesJson | LicensesMd | Sbom | Sums

  function Name(p: Part): string {
    match p
    case License => "LICENSE"
    case Notice => "NOTICE"
    case ManifestJson => "manifest.json"
    case AssetJson => "platform-asset-inventory.json"
    case AssetMd => "platform-asset-inventory.md"
    case LicensesJson => "release-license-inventory.json"
    case LicensesMd => "release-license-inventory.md"
    case Sbom => "sbom.cdx.json"
    case Sums => "SHA256SUMS"
  }

  const SCHEMA := "beluga-release-evidence/v1"

  /** The required parts, in the order of their names. */
  const PARTS := [License, Notice, ManifestJson, AssetJson, AssetMd, LicensesJson, LicensesMd, Sbom]

  predicate IsNameChar(c: char) { IsLetter(c) || IsDigit(c) || c == '.' || c == '_' || c == '-' }

  predicate IsName(s: string) { s != "" && forall i | 0 <= i < |s| :: IsNameChar(s[i]) }

  function NameLength(p: Part): nat {
    match p
    case License => 7
    case Notice => 6
    case ManifestJson => 13
    case AssetJson => 29
    case AssetMd => 27
    case LicensesJson => 30
    case LicensesMd => 28
    case Sbom => 13
    case Sums => 10
  }

  lemma {:induction false} NameShape(p: Part)
    ensures |Name(p)| == NameLength(p) && (Name(p)[0] == 'm' <==> p == ManifestJson)
  {
  }

  lemma {:induction false} ShortNames()
    ensures IsName("LICENSE") && IsName("NOTICE") && IsName("manifest.json")
    ensures IsName("SHA256SUMS") && IsName("sbom.cdx.json")
  {
  }

  lemma {:induction false} AssetNames()
    ensures IsName("platform-asset-inventory.json")
    ensures IsName("platform-asset-inventory.md")
  {
  }

  lemma {:induction false} LicenseNames()
    ensures IsName("release-license-inventory.json")
    ensures IsName("release-license-inventory.md")
  {
  }

  lemma {:induction false} NameIsName(p: Part)
    ensures IsName(Name(p))
  {
    hide IsName;
    ShortNames();
    AssetNames();
    LicenseNames();
  }

  lemma {:induction false} AllDistinct()
    ensures forall p, q :: Name(p) == Name(q) <==> p == q
    ensures forall p :: IsName(Name(p))
  {
    hide Name, IsName;
    forall p, q ensures Name(p) == Name(q) <==> p == q {
      NameShape(p);
      NameShape(q);
    }
    forall p ensures IsName(Name(p)) {
      NameIsName(p);
    }
  }

  // ----- SHA256SUMS

  /** Reading a text file: decoded, with `\r\n` and `\r` read as `\n`. */
  function Newlines(s: string): string {
    if s == "" then ""
    else if s[0] != '\r' then [s[0]] + Newlines(s[1..])
    else ['\n'] + Newlines(if |s| > 1 && s[1] == '\n' then s[2..] else s[1..])
  }

  /** Reading a text file changes it exactly when it holds a carriage return. */
  lemma {:induction false} NewlinesKeep(s: string)
    ensures '\r' !in Newlines(s)
    ensures Newlines(s) == s <==> '\r' !in s
    decreases |s|
  {
    if s != "" {
      if s[0] != '\r' {
        NewlinesKeep(s[1..]);
        assert s == [s[0]] + s[1..];
        assert Newlines(s)[1..] == Newlines(s[1..]);
      } else {
        NewlinesKeep(if |s| > 1 && s[1] == '\n' then s[2..] else s[1..]);
        assert Newlines(s)[0] == '\n';
      }
    }
  }

  function ReadText(t: Tools, b: Bytes): Option<string> {
    match t.decode(b)
    case None => None
    case Some(s) => Some(Newlines(s))
  }

  predicate IsLineBreak(c: char) {
    var n := c as int;
    10 <= n <= 13 || 28 <= n <= 30 || n == 0x85 || n == 0x2028 || n == 0x2029
  }

  function LineBreaks(s: string): (m: seq<bool>)
    ensures |m| == |s| && forall i | 0 <= i < |s| :: m[i] <==> IsLineBreak(s[i])
  {
    seq(|s|, i requires 0 <= i < |s| => IsLineBreak(s[i]))
  }

  /** `str.splitlines()` of a text without carriage returns. */
  function Lines(s: string): seq<string> {
    var r := Segments(s, LineBreaks(s), 0, |s|);
    r.done + if r.last == "" then [] else [r.last]
  }

  ghost predicate OneLine(s: string) { forall i | 0 <= i < |s| :: !IsLineBreak(s[i]) }

  lemma {:induction false} LineBreaksKeep(before: string, rest: string, text: string, m: seq<bool>)
    requires text == before + rest && m == LineBreaks(text)
    ensures Segments(text, m, 0, |before|) == Segments(before, LineBreaks(before), 0, |before|)
  {
    SegmentsSame(text, m, before, LineBreaks(before), |before|);
  }

  lemma {:induction false} LinesNext(before: string, x: string, text: string)
    requires OneLine(x) && text == before + x + ['\n']
    ensures var p := Segments(before, LineBreaks(before), 0, |before|);
            Segments(text, LineBreaks(text), 0, |text|) == Pieces(p.done + [p.last + x], "")
  {
    hide Segments;
    var m, k, n := LineBreaks(text), |before|, |before| + |x|;
    LineBreaksKeep(before, x + ['\n'], text, m) by {
      assert text == before + (x + ['\n']);
    }
    assert forall i | k <= i < n :: !m[i] by {
      assert forall i | k <= i < n :: text[i] == x[i - k];
    }
    assert text[k..n] == x;
    assert m[n] by {
      assert text[n] == '\n' && IsLineBreak('\n');
    }
    hide IsLineBreak, LineBreaks, OneLine;
    SegmentsExtend(text, m, 0, k, n);
    SegmentsLast(text, m, n);
  }

  lemma {:induction false} SegmentsLast(s: string, m: seq<bool>, n: nat)
    requires n + 1 == |s| == |m| && m[n]
    ensures var r := Segments(s, m, 0, n); Segments(s, m, 0, |s|) == Pieces(r.done + [r.last], "")
  {
  }

  /** `splitlines` undoes ending every line with a line feed. */
  lemma {:induction false} LinesEnded(lines: seq<string>, text: string)
    requires (forall i | 0 <= i < |lines| :: OneLine(lines[i])) && text == Ended(lines, '\n')
    ensures Segments(text, LineBreaks(text), 0, |text|) == Pieces(lines, "")
    ensures Lines(text) == lines
  {
    if lines != [] {
      hide Segments, OneLine;
      var n := |lines| - 1;
      var before := Ended(lines[..n], '\n');
      LinesEnded(lines[..n], before);
      assert lines == lines[..n] + [lines[n]];
      LinesNext(before, lines[n], text);
      assert "" + lines[n] == lines[n];
    }
    assert lines + [] == lines;
  }

  /** One line: a digest, two spaces and a name. */
  function ParseLine(line: string): Option<(string, string)> {
    if |line| > 66 && HexOnly(line[..64]) && line[64] == ' ' && line[65] == ' ' && IsName(line[66..])
    then Some((line[..64], line[66..]))
    else None
  }

  function PrintLine(digest: string, name: string): string { digest + "  " + name }

  /** The parser accepts exactly what the printer writes. */
  lemma {:induction false} LineRoundTrip(line: string, digest: string, name: string)
    ensures ParseLine(line) == Some((digest, name)) <==>
            line == PrintLine(digest, name) && IsDigest(digest) && IsName(name)
  {
    if line == PrintLine(digest, name) && IsDigest(digest) && IsName(name) {
      assert line[..64] == digest && line[66..] == name;
    }
    if ParseLine(line) == Some((digest, name)) {
      assert line == line[..64] + [line[64], line[65]] + line[66..];
    }
  }

  /** The entries of the first `n` lines; a malformed line, a repeated name and `SHA256SUMS` itself
      are errors. */
  function ListedTo(lines: seq<string>, n: nat): Option<map<string, string>>
    requires n <= |lines|
  {
    if n == 0 then Some(map[])
    else
      match (ListedTo(lines, n - 1), ParseLine(lines[n - 1]))
      case (Some(listed), Some((digest, name))) =>
        if name in listed || name == Name(Sums) then None else Some(listed[name := digest])
      case _ => None
  }

  function Listed(lines: seq<string>): Option<map<string, string>> { ListedTo(lines, |lines|) }

  method ParseSums(lines: seq<string>) returns (listed: Option<map<string, string>>)
    ensures listed == Listed(lines)
  {
    hide Name, ParseLine;
    var found := map[];
    for n := 0 to |lines|
      invariant ListedTo(lines, n) == Some(found)
    {
      match ParseLine(lines[n])
      case None =>
        ListedStops(lines, n + 1);
        return None;
      case Some((digest, name)) =>
        if name in found || name == Name(Sums) {
          ListedStops(lines, n + 1);
          return None;
        }
        found := found[name := digest];
    }
    return Some(found);
  }

  lemma {:induction false} ListedStops(lines: seq<string>, n: nat)
    requires n <= |lines| && ListedTo(lines, n) == None
    ensures Listed(lines) == None
    decreases |lines| - n
  {
    hide Name, ParseLine;
    if n < |lines| {
      ListedStops(lines, n + 1);
    }
  }

  /** One of the first `n` lines says so. */
  ghost predicate Says(lines: seq<string>, n: nat, name: string, digest: string)
    requires n <= |lines|
  {
    exists i | 0 <= i < n :: ParseLine(lines[i]) == Some((digest, name))
  }

  lemma {:induction false} SaysNext(lines: seq<string>, n: nat, name: string, digest: string)
    requires 0 < n <= |lines|
    ensures Says(lines, n, name, digest) <==>
            Says(lines, n - 1, name, digest) || ParseLine(lines[n - 1]) == Some((digest, name))
  {
    hide ParseLine;
  }

  /** What is listed is what the lines say, one entry a line. */
  lemma {:induction false} ListedSays(lines: seq<string>, n: nat)
    requires n <= |lines| && ListedTo(lines, n).Some?
    ensures forall name, digest ::
              name in ListedTo(lines, n).value && ListedTo(lines, n).value[name] == digest <==>
              Says(lines, n, name, digest)
    ensures |ListedTo(lines, n).value| == n
  {
    hide ParseLine, Name;
    if n > 0 {
      hide Says;
      ListedSays(lines, n - 1);
      var before := ListedTo(lines, n - 1).value;
      forall name, digest
        ensures name in ListedTo(lines, n).value && ListedTo(lines, n).value[name] == digest <==>
                Says(lines, n, name, digest)
      {
        assert name in before && before[name] == digest <==> Says(lines, n - 1, name, digest);
        SaysNext(lines, n, name, digest);
      }
    }
  }

  /** The order of the lines does not matter: two accepted lists stand for the same entries exactly
      when their lines say the same. */
  lemma {:induction false} SameEntries(lines: seq<string>, lines': seq<string>)
    requires Listed(lines).Some? && Listed(lines').Some?
    ensures Listed(lines) == Listed(lines') <==>
            forall name, digest :: Says(lines, |lines|, name, digest) <==> Says(lines', |lines'|, name, digest)
  {
    hide Says, ListedTo;
    ListedSays(lines, |lines|);
    ListedSays(lines', |lines'|);
    var m, m' := Listed(lines).value, Listed(lines').value;
    if forall name, digest :: Says(lines, |lines|, name, digest) <==> Says(lines', |lines'|, name, digest) {
      forall name ensures name in m <==> name in m' {
        if name in m {
          assert Says(lines, |lines|, name, m[name]);
        }
        if name in m' {
          assert Says(lines', |lines'|, name, m'[name]);
        }
      }
      forall name | name in m ensures m[name] == m'[name] {
        assert Says(lines, |lines|, name, m[name]);
      }
      assert m == m';
    }
  }

  // ----- The printer and the parser of SHA256SUMS

  /** The entries have different names, none of them `SHA256SUMS`. */
  ghost predicate Listable(entries: seq<(string, string)>) {
    && (forall i, j | 0 <= i < j < |entries| :: entries[i].1 != entries[j].1)
    && forall i | 0 <= i < |entries| :: IsDigest(entries[i].0) && IsName(entries[i].1) && entries[i].1 != Name(Sums)
  }

  ghost predicate Prints(entries: seq<(string, string)>, lines: seq<string>) {
    |lines| == |entries| && forall i | 0 <= i < |entries| :: lines[i] == PrintLine(entries[i].0, entries[i].1)
  }

  /** The map holds the first `k` entries and nothing else. */
  ghost predicate Holds(entries: seq<(string, string)>, k: nat, listed: map<string, string>)
    requires k <= |entries|
  {
    && (forall n | n in listed :: exists i | 0 <= i < k :: n == entries[i].1)
    && (forall i | 0 <= i < k :: entries[i].1 in listed && listed[entries[i].1] == entries[i].0)
  }

  lemma {:induction false} PrintedEntries(entries: seq<(string, string)>, lines: seq<string>, k: nat)
    requires Listable(entries) && Prints(entries, lines) && k <= |entries|
    ensures ListedTo(lines, k).Some? && Holds(entries, k, ListedTo(lines, k).value)
  {
    hide ParseLine, PrintLine, IsName, IsDigest, Name;
    if k > 0 {
      PrintedEntries(entries, lines, k - 1);
      LineRoundTrip(lines[k - 1], entries[k - 1].0, entries[k - 1].1);
      hide Listable, Prints;
      HoldsNext(entries, k, ListedTo(lines, k - 1).value);
    }
  }

  lemma {:induction false} HoldsNext(entries: seq<(string, string)>, k: nat, before: map<string, string>)
    requires 0 < k <= |entries| && Holds(entries, k - 1, before) && Listable(entries)
    ensures var (digest, name) := entries[k - 1];
            name !in before && name != Name(Sums) && Holds(entries, k, before[name := digest])
  {
    hide IsName, IsDigest, Name;
  }

  lemma {:induction false} PrintedOnOneLine(digest: string, name: string)
    requires IsDigest(digest) && IsName(name)
    ensures OneLine(PrintLine(digest, name))
  {
    var line := PrintLine(digest, name);
    forall i | 0 <= i < |line| ensures !IsLineBreak(line[i]) {
      assert i < 64 ==> IsHex(digest[i]);
      assert i >= 66 ==> IsNameChar(name[i - 66]);
    }
  }

  /** What the parser reads back is what the printer was given. */
  lemma {:induction false} SumsRoundTrip(entries: seq<(string, string)>, lines: seq<string>)
    requires Listable(entries) && Prints(entries, lines)
    ensures var listed := Listed(Lines(Ended(lines, '\n')));
            listed.Some? && Holds(entries, |entries|, listed.value)
  {
    hide Lines, OneLine, PrintLine, ParseLine, IsName, IsDigest, Name, ListedTo;
    forall i | 0 <= i < |lines| ensures OneLine(lines[i]) {
      PrintedOnOneLine(entries[i].0, entries[i].1);
    }
    LinesEnded(lines, Ended(lines, '\n'));
    PrintedEntries(entries, lines, |entries|);
  }

  // ----- What a verified bundle is

  /** The files of the checkout that a bundle is compared with, where they exist, and the component
      names in its VERSIONS.md, absent when that cannot be parsed. */
  datatype Checkout = Checkout(notice: Option<Entry>, license: Option<Entry>, assetDoc: Option<Entry>,
                               components: Option<seq<string>>)

  /** One or more digits from `i` on, ended by a dot. */
  predicate NumberDot(s: string, i: nat) {
    i <= |s| && i < DigitsEnd(s, i) < |s| && s[DigitsEnd(s, i)] == '.'
  }

  /** `v[0-9]+\.[0-9]+\.[0-9]+(?:-[0-9A-Za-z.]+)?` */
  predicate IsVersion(s: string) {
    && s != "" && s[0] == 'v' && NumberDot(s, 1) && NumberDot(s, DigitsEnd(s, 1) + 1)
    && var patch := DigitsEnd(s, DigitsEnd(s, 1) + 1) + 1;
       var end := DigitsEnd(s, patch);
       && patch < end
       && (end == |s| || (s[end] == '-' && end + 1 < |s| &&
             forall k | end < k < |s| :: IsDigit(s[k]) || IsLetter(s[k]) || s[k] == '.'))
  }

  predicate ValidIdentity(version: string, commit: string) {
    IsVersion(version) && |commit| == 40 && HexOnly(commit)
  }

  /** The sections hold something and the summary counts them. */
  predicate Consistent(t: Tools, a: Assets) {
    && a.charts == t.charts && a.profiles == t.profiles
    && a.workloads != [] && a.customResources != [] && a.images != [] && a.storage != []
    && a.summary == Counts(|a.workloads|, |a.customResources|, |a.images|, |a.storage|)
  }

  /** The components of the Name(Sbom) that come from VERSIONS.md. */
  function FromVersions(components: seq<Component>): seq<string> {
    if components == [] then []
    else (if components[0].fromVersions then [components[0].name] else []) + FromVersions(components[1..])
  }

  predicate BomMatches(t: Tools, b: Bom, version: string, commit: string) {
    t.validBom(b) && b.commit == Some(commit) && b.version == Some(version)
  }

  /** The names of the required files; `SHA256SUMS` is not one of them. */
  function RequiredSet(): set<string> { set p: Part | p != Sums :: Name(p) }

  predicate AllFiles(dir: Directory) { forall n | n in RequiredSet() :: n in dir && dir[n].File? }

  function Read(dir: Directory, name: string): Option<Bytes> {
    if name !in dir then None
    else match dir[name]
      case File(b) => Some(b)
      case Symlink(target) => if target.ToFile? then Some(target.bytes) else None
      case Folder => None
  }

  function ListedIn(t: Tools, dir: Directory): Option<map<string, string>> {
    match Read(dir, Name(Sums))
    case None => None
    case Some(b) =>
      match ReadText(t, b)
      case None => None
      case Some(text) => Listed(Lines(text))
  }

  /** The directory holds the required files and `SHA256SUMS`, which lists their digests. */
  ghost predicate Sealed(t: Tools, dir: Directory) {
    && AllFiles(dir) && dir.Keys == RequiredSet() + {Name(Sums)} && ListedIn(t, dir).Some?
    && var listed := ListedIn(t, dir).value;
       listed.Keys == RequiredSet() && forall n | n in RequiredSet() :: t.digest(dir[n].content) == listed[n]
  }

  function ReadJson(t: Tools, b: Bytes): Option<Document> {
    match ReadText(t, b)
    case None => None
    case Some(text) => t.load(text)
  }

  /** The documents agree with each other, with the expected commit and with the checkout. */
  predicate DocumentsAgree(t: Tools, manifest: Option<Document>, bom: Option<Document>, licenses: Option<Document>,
                           assets: Option<Document>, md: Option<string>, c: Checkout, expected: Option<string>)
  {
    && manifest.Some? && bom.Some? && licenses.Some? && assets.Some? && md.Some?
    && manifest.value.ManifestDoc? && bom.value.BomDoc? && licenses.value.LicensesDoc? && assets.value.AssetsDoc?
    && var m, b, a := manifest.value.manifest, bom.value.bom, assets.value.assets;
       && m.schema == SCHEMA && ValidIdentity(m.version, m.commit)
       && (expected.Some? ==> expected.value == m.commit)
       && BomMatches(t, b, m.version, m.commit)
       && licenses.value.licenses != []
       && Consistent(t, a) && t.renderAssets(a) == md
       && c.components.Some? && multiset(FromVersions(b.components)) == multiset(c.components.value)
  }

  predicate Agree(t: Tools, dir: Directory, c: Checkout, expected: Option<string>)
    requires AllFiles(dir)
  {
    && DocumentsAgree(t, ReadJson(t, dir[Name(ManifestJson)].content), ReadJson(t, dir[Name(Sbom)].content),
                      ReadJson(t, dir[Name(LicensesJson)].content), ReadJson(t, dir[Name(AssetJson)].content),
                      ReadText(t, dir[Name(AssetMd)].content), c, expected)
    && c.assetDoc == Some(dir[Name(AssetMd)])
    && c.notice == Some(dir[Name(Notice)]) && c.license == Some(dir[Name(License)])
  }

  ghost predicate Accepted(t: Tools, dir: Directory, c: Checkout, expected: Option<string>) {
    Sealed(t, dir) && Agree(t, dir, c, expected)
  }

  /** What is built from. */
  datatype Inputs = Inputs(version: string, commit: string, notice: Bytes, license: Bytes,
                           licenses: seq<string>, bom: Bom, assets: Assets)

  /** The bytes of a part; none for assets that cannot be rendered. */
  function Content(t: Tools, i: Inputs, p: Part): Bytes
    decreases if p == Sums then 2 else 0
  {
    match p
    case License => i.license
    case Notice => i.notice
    case ManifestJson => t.encode(t.dump(ManifestDoc(Manifest(SCHEMA, i.version, i.commit))))
    case AssetJson => t.encode(t.dump(AssetsDoc(i.assets)))
    case AssetMd => (match t.renderAssets(i.assets) case None => [] case Some(md) => t.encode(md))
    case LicensesJson => t.encode(t.dump(LicensesDoc(i.licenses)))
    case LicensesMd => t.encode(t.renderLicenses(i.licenses))
    case Sbom => t.encode(t.dump(BomDoc(i.bom)))
    case Sums => t.encode(Ended(SumLines(t, i), '\n'))
  }

  /** The line of each part. */
  function SumLines(t: Tools, i: Inputs): (lines: seq<string>)
    decreases 1
  {
    seq(|PARTS|, k requires 0 <= k < |PARTS| => PrintLine(t.digest(Content(t, i, PARTS[k])), Name(PARTS[k])))
  }

  /** The order in which the files are written. */
  const ORDER := [Notice, License, Sbom, LicensesJson, LicensesMd, AssetJson, AssetMd, ManifestJson, Sums]

  /** The place of a part in that order. */
  function Turn(p: Part): (k: nat)
    ensures k < |ORDER| && ORDER[k] == p
  {
    match p
    case Notice => 0
    case License => 1
    case Sbom => 2
    case LicensesJson => 3
    case LicensesMd => 4
    case AssetJson => 5
    case AssetMd => 6
    case ManifestJson => 7
    case Sums => 8
  }

  /** The line of `SHA256SUMS` for a part. */
  function LineOf(p: Part): (k: nat)
    requires p != Sums
    ensures k < |PARTS| && PARTS[k] == p
  {
    match p
    case License => 0
    case Notice => 1
    case ManifestJson => 2
    case AssetJson => 3
    case AssetMd => 4
    case LicensesJson => 5
    case LicensesMd => 6
    case Sbom => 7
  }

  /** A name that cannot be written to. */
  predicate Blocked(dir: Directory, name: string) {
    name in dir && (dir[name].Folder? || dir[name] == Symlink(ToOther))
  }

  /** Writing to a link writes to where it leads. */
  function Put(dir: Directory, name: string, b: Bytes): Entry {
    if name in dir && dir[name].Symlink? then Symlink(ToFile(b)) else File(b)
  }

  /** The directory after the first `k` files. */
  function Written(t: Tools, i: Inputs, was: Directory, k: nat): Directory
    requires k <= |ORDER|
  {
    if k == 0 then was
    else
      var dir, name := Written(t, i, was, k - 1), Name(ORDER[k - 1]);
      dir[name := Put(dir, name, Content(t, i, ORDER[k - 1]))]
  }

  /** How many files there are in the end when `k` have been written: it stops at a name that cannot be
      written to, and before the seventh file when the assets cannot be rendered. */
  function Steps(t: Tools, i: Inputs, was: Directory, k: nat): (n: nat)
    requires k <= |ORDER|
    ensures k <= n <= |ORDER|
    decreases |ORDER| - k
  {
    if k == |ORDER| || Blocked(was, Name(ORDER[k])) || (k == 6 && t.renderAssets(i.assets).None?) then k
    else Steps(t, i, was, k + 1)
  }

  /** Whether a build writes all its files. */
  predicate Completes(t: Tools, i: Inputs, was: Directory) {
    ValidIdentity(i.version, i.commit) && Steps(t, i, was, 0) == |ORDER|
  }

  /** What a build leaves where `was` was before. */
  function After(t: Tools, i: Inputs, was: Directory): Directory {
    if ValidIdentity(i.version, i.commit) then Written(t, i, was, Steps(t, i, was, 0)) else was
  }

  /** What is under a name after `k` files: the part that was written there, or what was there before. */
  lemma {:induction false} WrittenAt(t: Tools, i: Inputs, was: Directory, k: nat, n: string)
    requires k <= |ORDER|
    ensures forall j | 0 <= j < k :: n == Name(ORDER[j]) ==>
              n in Written(t, i, was, k) && Written(t, i, was, k)[n] == Put(was, n, Content(t, i, ORDER[j]))
    ensures (forall j | 0 <= j < k :: n != Name(ORDER[j])) ==>
              (n in Written(t, i, was, k) <==> n in was) && (n in was ==> Written(t, i, was, k)[n] == was[n])
  {
    hide Name, IsName, Content;
    if k > 0 {
      WrittenAt(t, i, was, k - 1, n);
      AllDistinct();
    }
  }

  /** The next name is still as it was. */
  lemma {:induction false} NotYetWritten(t: Tools, i: Inputs, was: Directory, k: nat)
    requires k < |ORDER|
    ensures var n := Name(ORDER[k]);
            && (n in Written(t, i, was, k) <==> n in was) && (n in was ==> Written(t, i, was, k)[n] == was[n])
            && (Blocked(Written(t, i, was, k), n) <==> Blocked(was, n))
  {
    hide Name, IsName, Content, Written;
    AllDistinct();
    WrittenAt(t, i, was, k, Name(ORDER[k]));
  }

  lemma {:induction false} PartWritten(t: Tools, i: Inputs, was: Directory, p: Part)
    requires p != Sums
    ensures Read(Written(t, i, was, 8), Name(p)) == Some(Content(t, i, p))
  {
    hide Name, Content, Written;
    WrittenAt(t, i, was, 8, Name(p));
    assert Turn(p) < 8 && ORDER[Turn(p)] == p;
  }

  /** A build at work: it has written `k` files. */
  ghost predicate AtStep(t: Tools, i: Inputs, was: Directory, k: nat, dir: Directory) {
    k <= |ORDER| && dir == Written(t, i, was, k) && Steps(t, i, was, 0) == Steps(t, i, was, k)
  }

  lemma {:induction false} NextStep(t: Tools, i: Inputs, was: Directory, dir: Directory, p: Part, b: Bytes)
    requires AtStep(t, i, was, Turn(p), dir) && b == Content(t, i, p)
    requires p == AssetMd ==> t.renderAssets(i.assets).Some?
    ensures Blocked(dir, Name(p)) ==> Steps(t, i, was, 0) == Turn(p)
    ensures !Blocked(dir, Name(p)) ==> AtStep(t, i, was, Turn(p) + 1, dir[Name(p) := Put(dir, Name(p), b)])
  {
    hide Name, Content, Blocked, Put;
    NotYetWritten(t, i, was, Turn(p));
  }

  lemma {:induction false} NothingYet(t: Tools, i: Inputs, was: Directory)
    ensures AtStep(t, i, was, 0, was)
  {
    hide Steps;
  }

  lemma {:induction false} NoRendering(t: Tools, i: Inputs, was: Directory)
    requires t.renderAssets(i.assets).None?
    ensures Steps(t, i, was, 6) == 6
  {
  }

  lemma {:induction false} AllSteps(t: Tools, i: Inputs, was: Directory, dir: Directory)
    requires AtStep(t, i, was, |ORDER|, dir)
    ensures Steps(t, i, was, 0) == |ORDER| && dir == Written(t, i, was, |ORDER|)
  {
    hide Written;
  }

  class Bundle {
    var files: Directory

    constructor (dir: Directory)
      ensures files == dir
    {
      files := dir;
    }

    method Verify(t: Tools, c: Checkout, expected: Option<string>) returns (accepted: bool)
      ensures accepted <==> Accepted(t, files, c, expected)
    {
      hide Agree, Lines, Listed, Newlines, Name;
      AllDistinct();
      var bytes := Read(files, Name(Sums));
      if bytes.None? {
        return false;
      }
      var text := ReadText(t, bytes.value);
      if text.None? {
        return false;
      }
      var listed := ParseSums(Lines(text.value));
      if listed.None? || listed.value.Keys != RequiredSet() {
        return false;
      }
      if files.Keys - listed.value.Keys - {Name(Sums)} != {} {
        return false;
      }
      var left := listed.value.Keys;
      while left != {}
        invariant left <= listed.value.Keys
        invariant forall n | n in listed.value.Keys - left ::
                    n in files && files[n].File? && t.digest(files[n].content) == listed.value[n]
        decreases left
      {
        var n :| n in left;
        if n !in files || !files[n].File? || t.digest(files[n].content) != listed.value[n] {
          return false;
        }
        left := left - {n};
      }
      accepted := Agreement(t, c, expected);
    }

    /** The checks on the documents, in order. */
    method Agreement(t: Tools, c: Checkout, expected: Option<string>) returns (agree: bool)
      requires AllFiles(files)
      ensures agree <==> Agree(t, files, c, expected)
    {
      hide ValidIdentity, Consistent, BomMatches, ReadJson, ReadText, Name;
      AllDistinct();
      var manifest, bom := ReadJson(t, files[Name(ManifestJson)].content), ReadJson(t, files[Name(Sbom)].content);
      var licenses, assets := ReadJson(t, files[Name(LicensesJson)].content), ReadJson(t, files[Name(AssetJson)].content);
      var md := ReadText(t, files[Name(AssetMd)].content);
      if manifest.None? || bom.None? || licenses.None? || assets.None? || md.None? {
        return false;
      }
      if !manifest.value.ManifestDoc? || manifest.value.manifest.schema != SCHEMA {
        return false;
      }
      var m := manifest.value.manifest;
      if !ValidIdentity(m.version, m.commit) || (expected.Some? && m.commit != expected.value) {
        return false;
      }
      if !bom.value.BomDoc? || !BomMatches(t, bom.value.bom, m.version, m.commit) {
        return false;
      }
      if !licenses.value.LicensesDoc? || licenses.value.licenses == [] {
        return false;
      }
      if !assets.value.AssetsDoc? || !Consistent(t, assets.value.assets) || t.renderAssets(assets.value.assets) != md {
        return false;
      }
      if c.assetDoc != Some(files[Name(AssetMd)]) || c.notice != Some(files[Name(Notice)]) || c.license != Some(files[Name(License)]) {
        return false;
      }
      if c.components.None? {
        return false;
      }
      agree := multiset(FromVersions(bom.value.bom.components)) == multiset(c.components.value);
    }

    /** Nothing is written without a valid identity. Otherwise the files are written one by one, the list
        last and only after everything else, up to the first one that fails. */
    method Build(t: Tools, i: Inputs) returns (built: bool)
      modifies this
      ensures built <==> Completes(t, i, old(files))
      ensures files == After(t, i, old(files))
    {
      hide ValidIdentity, Written, Steps;
      if !ValidIdentity(i.version, i.commit) {
        return false;
      }
      ghost var was := files;
      built := WriteEarly(t, i);
      if !built {
        return false;
      }
      if t.renderAssets(i.assets).None? {
        NoRendering(t, i, was);
        return false;
      }
      built := WriteLate(t, i, was);
    }

    /** The command `build` verifies at once what it has built. */
    method BuildCommand(t: Tools, i: Inputs, c: Checkout) returns (ok: bool)
      requires Faithful(t)
      modifies this
      ensures files == After(t, i, old(files))
      ensures ok <==>
              && ValidIdentity(i.version, i.commit) && t.renderAssets(i.assets).Some?
              && (forall p :: !Blocked(old(files), Name(p))) && Replaceable(old(files))
              && InputsAgree(t, i, c, Some(i.commit))
    {
      hide Completes, After, Accepted, Replaceable, ValidIdentity, InputsAgree, Blocked;
      BuildThenVerify(t, i, files, c, Some(i.commit));
      ok := Build(t, i);
      if ok {
        ok := Verify(t, c, Some(i.commit));
      }
    }

    method WriteEarly(t: Tools, i: Inputs) returns (ok: bool)
      modifies this
      ensures ok ==> AtStep(t, i, old(files), 6, files)
      ensures !ok ==> Steps(t, i, old(files), 0) < 6 && files == Written(t, i, old(files), Steps(t, i, old(files), 0))
    {
      hide AtStep, Written, Steps, SumLines, PrintLine;
      ghost var was := files;
      NothingYet(t, i, was);
      ok := Write(Notice, i.notice, t, i, was);
      if !ok { return false; }
      ok := Write(License, i.license, t, i, was);
      if !ok { return false; }
      ok := Write(Sbom, t.encode(t.dump(BomDoc(i.bom))), t, i, was);
      if !ok { return false; }
      ok := Write(LicensesJson, t.encode(t.dump(LicensesDoc(i.licenses))), t, i, was);
      if !ok { return false; }
      ok := Write(LicensesMd, t.encode(t.renderLicenses(i.licenses)), t, i, was);
      if !ok { return false; }
      ok := Write(AssetJson, t.encode(t.dump(AssetsDoc(i.assets))), t, i, was);
    }

    method WriteLate(t: Tools, i: Inputs, ghost was: Directory) returns (ok: bool)
      requires AtStep(t, i, was, 6, files) && t.renderAssets(i.assets).Some?
      modifies this
      ensures ok <==> Steps(t, i, was, 0) == |ORDER|
      ensures files == Written(t, i, was, Steps(t, i, was, 0))
    {
      hide AtStep, Written, Steps, SumLines, PrintLine;
      ok := Write(AssetMd, t.encode(t.renderAssets(i.assets).value), t, i, was);
      if !ok { return false; }
      ok := Write(ManifestJson, t.encode(t.dump(ManifestDoc(Manifest(SCHEMA, i.version, i.commit)))), t, i, was);
      if !ok { return false; }
      var lines := DigestLines(t, i, was);
      ok := Write(Sums, t.encode(Ended(lines, '\n')), t, i, was);
      if ok {
        AllSteps(t, i, was, files);
      }
    }

    method Write(p: Part, b: Bytes, ghost t: Tools, ghost i: Inputs, ghost was: Directory) returns (ok: bool)
      requires b == Content(t, i, p) && AtStep(t, i, was, Turn(p), files)
      requires p == AssetMd ==> t.renderAssets(i.assets).Some?
      modifies this
      ensures ok ==> AtStep(t, i, was, Turn(p) + 1, files)
      ensures !ok ==> Steps(t, i, was, 0) == Turn(p) && files == Written(t, i, was, Turn(p))
    {
      hide Name, Content, Steps, Written, Turn;
      NextStep(t, i, was, files, p, b);
      if Blocked(files, Name(p)) {
        return false;
      }
      files := files[Name(p) := Put(files, Name(p), b)];
      ok := true;
    }

    /** The files are read back for their digests. */
    method DigestLines(t: Tools, ghost i: Inputs, ghost was: Directory) returns (lines: seq<string>)
      requires AtStep(t, i, was, 8, files)
      ensures lines == SumLines(t, i)
    {
      hide Name, Content, Written, PrintLine, Steps;
      lines := [];
      for n := 0 to |PARTS|
        invariant |lines| == n && forall k | 0 <= k < n :: lines[k] == SumLines(t, i)[k]
      {
        PartWritten(t, i, was, PARTS[n]);
        var name := Name(PARTS[n]);
        lines := lines + [PrintLine(t.digest(Read(files, name).value), name)];
      }
    }
  }

  // ----- What the seal is worth

  /** Everything but the way `SHA256SUMS` itself is stored. */
  function Others(dir: Directory): Directory { dir - {Name(Sums)} }

  /** With an injective digest the list fixes the files. */
  lemma {:induction false} SameSumsSameFiles(t: Tools, dir: Directory, dir': Directory)
    requires Injective(t) && Sealed(t, dir) && Sealed(t, dir') && ListedIn(t, dir) == ListedIn(t, dir')
    ensures Others(dir) == Others(dir')
  {
    hide Name, ListedIn;
    forall n | n in Others(dir) ensures dir[n] == dir'[n] {
      assert n in RequiredSet();
      assert t.digest(dir[n].content) == t.digest(dir'[n].content);
    }
  }

  /** Under the same `SHA256SUMS` exactly the directories are sealed that hold the same names and, as
      files, contents with the same digests. */
  lemma {:induction false} SealedUnder(t: Tools, dir: Directory, dir': Directory)
    requires Sealed(t, dir) && Name(Sums) in dir' && dir'[Name(Sums)] == dir[Name(Sums)]
    ensures Sealed(t, dir') <==>
            && AllFiles(dir') && dir'.Keys == dir.Keys
            && forall n | n in RequiredSet() :: t.digest(dir'[n].content) == t.digest(dir[n].content)
  {
    hide Name, RequiredSet, ReadText, Listed, Lines;
    assert ListedIn(t, dir') == ListedIn(t, dir);
  }

  /** Whoever leaves `SHA256SUMS` alone changes nothing, adds nothing and removes nothing without being
      rejected, whatever the checkout says. */
  lemma {:induction false} TamperingIsRejected(t: Tools, dir: Directory, dir': Directory)
    requires Injective(t) && Sealed(t, dir)
    requires Name(Sums) in dir' && dir'[Name(Sums)] == dir[Name(Sums)]
    ensures Sealed(t, dir') <==> dir' == dir
    ensures dir' != dir ==> forall c, expected :: !Accepted(t, dir', c, expected)
  {
    hide Name, Agree, ListedIn;
    SealedUnder(t, dir, dir');
    if Sealed(t, dir') {
      forall n | n in dir ensures dir'[n] == dir[n] {
        assert n != Name(Sums) ==> n in RequiredSet() && dir'[n].content == dir[n].content;
      }
      assert dir' == dir;
    }
  }

  lemma {:induction false} AgreeOnParts(t: Tools, dir: Directory, dir': Directory, c: Checkout, expected: Option<string>)
    requires AllFiles(dir) && forall p | p != Sums :: Name(p) in dir' && dir'[Name(p)] == dir[Name(p)]
    ensures AllFiles(dir') && (Agree(t, dir', c, expected) <==> Agree(t, dir, c, expected))
  {
    hide Name, ReadJson, ReadText, DocumentsAgree;
    assert forall p | p != Sums :: Name(p) in RequiredSet();
    assert Name(ManifestJson) in dir && Name(Sbom) in dir && Name(LicensesJson) in dir && Name(AssetJson) in dir;
    assert Name(AssetMd) in dir && Name(Notice) in dir && Name(License) in dir;
  }

  /** `SHA256SUMS` itself may be replaced, exactly by what lists the same entries. */
  lemma {:induction false} ReplacedSums(t: Tools, dir: Directory, e: Entry, c: Checkout, expected: Option<string>)
    requires Accepted(t, dir, c, expected)
    ensures var dir' := dir[Name(Sums) := e];
            Accepted(t, dir', c, expected) <==> ListedIn(t, dir') == ListedIn(t, dir)
  {
    hide Name, IsName, ListedIn, Agree;
    AllDistinct();
    var dir' := dir[Name(Sums) := e];
    AgreeOnParts(t, dir, dir', c, expected);
    assert forall n | n in RequiredSet() :: n in dir' && dir'[n] == dir[n];
    if ListedIn(t, dir').Some? && ListedIn(t, dir').value.Keys == RequiredSet() &&
       (forall n | n in RequiredSet() :: t.digest(dir[n].content) == ListedIn(t, dir').value[n]) {
      assert ListedIn(t, dir').value == ListedIn(t, dir).value;
    }
  }

  // ----- A bundle that was just built

  /** What a build leaves: the nine files, and every other name as it was. */
  lemma {:induction false} AllWritten(t: Tools, i: Inputs, was: Directory)
    ensures var dir := Written(t, i, was, |ORDER|);
            && (forall p :: Name(p) in dir && dir[Name(p)] == Put(was, Name(p), Content(t, i, p)))
            && dir.Keys == was.Keys + RequiredSet() + {Name(Sums)}
  {
    hide Name, IsName, Content, Written;
    var dir := Written(t, i, was, |ORDER|);
    forall p ensures Name(p) in dir && dir[Name(p)] == Put(was, Name(p), Content(t, i, p)) {
      WrittenAt(t, i, was, |ORDER|, Name(p));
      assert ORDER[Turn(p)] == p;
    }
    forall n ensures n in dir <==> n in was || n in RequiredSet() + {Name(Sums)} {
      if n !in RequiredSet() + {Name(Sums)} {
        WrittenAt(t, i, was, |ORDER|, n);
        assert forall p :: p != Sums ==> Name(p) in RequiredSet();
      }
    }
  }

  lemma {:induction false} NoReturns(lines: seq<string>)
    requires forall k | 0 <= k < |lines| :: OneLine(lines[k])
    ensures '\r' !in Ended(lines, '\n')
  {
    if lines != [] {
      NoReturns(lines[..|lines| - 1]);
      var x := lines[|lines| - 1];
      assert '\r' !in x by {
        assert IsLineBreak('\r');
      }
    }
  }

  function Entries(t: Tools, i: Inputs): (entries: seq<(string, string)>)
    ensures |entries| == |PARTS|
    ensures forall k | 0 <= k < |PARTS| :: entries[k] == (t.digest(Content(t, i, PARTS[k])), Name(PARTS[k]))
  {
    seq(|PARTS|, k requires 0 <= k < |PARTS| => (t.digest(Content(t, i, PARTS[k])), Name(PARTS[k])))
  }

  /** Its `SHA256SUMS` lists its parts. */
  lemma {:induction false} BuiltIsListed(t: Tools, i: Inputs, was: Directory)
    requires Faithful(t)
    ensures var listed := ListedIn(t, Written(t, i, was, |ORDER|));
            && listed.Some? && listed.value.Keys == RequiredSet()
            && forall p | p != Sums :: listed.value[Name(p)] == t.digest(Content(t, i, p))
  {
    hide *;
    AllWritten(t, i, was);
    SumsRead(t, i);
    BuiltRead(t, was, i);
    var listed := ListedIn(t, Written(t, i, was, |ORDER|)).value;
    HoldsParts(t, i, listed);
  }

  lemma {:induction false} BuiltRead(t: Tools, was: Directory, i: Inputs)
    ensures ListedIn(t, Written(t, i, was, |ORDER|)) ==
            match ReadText(t, Content(t, i, Sums)) case None => None case Some(text) => Listed(Lines(text))
  {
    hide Name, Content, Written, ReadText, Lines, Listed;
    AllWritten(t, i, was);
  }

  lemma {:induction false} SumsRead(t: Tools, i: Inputs)
    requires Faithful(t)
    ensures ReadText(t, Content(t, i, Sums)).Some?
    ensures var listed := Listed(Lines(ReadText(t, Content(t, i, Sums)).value));
            listed.Some? && Holds(Entries(t, i), |PARTS|, listed.value)
  {
    hide Name, IsName, IsDigest, PrintLine, Lines, ListedTo, OneLine, Newlines, Listable;
    var entries, lines := Entries(t, i), SumLines(t, i);
    EntriesListable(t, i);
    forall k | 0 <= k < |lines| ensures OneLine(lines[k]) {
      ListableAt(entries, k);
      PrintedOnOneLine(entries[k].0, entries[k].1);
    }
    var text := Ended(lines, '\n');
    NoReturns(lines);
    NewlinesKeep(text);
    TextReadBack(t, text);
    SumsRoundTrip(entries, lines);
  }

  lemma {:induction false} ListableAt(entries: seq<(string, string)>, k: nat)
    requires Listable(entries) && k < |entries|
    ensures IsDigest(entries[k].0) && IsName(entries[k].1)
  {
  }

  lemma {:induction false} EntriesListable(t: Tools, i: Inputs)
    requires Faithful(t)
    ensures Listable(Entries(t, i))
  {
    hide Name, IsName, IsDigest, Content;
    AllDistinct();
  }

  lemma {:induction false} HoldsParts(t: Tools, i: Inputs, listed: map<string, string>)
    requires Holds(Entries(t, i), |PARTS|, listed)
    ensures listed.Keys == RequiredSet()
    ensures forall p | p != Sums :: listed[Name(p)] == t.digest(Content(t, i, p))
  {
    hide Name, Content;
    var entries := Entries(t, i);
    forall p | p != Sums ensures Name(p) in listed && listed[Name(p)] == t.digest(Content(t, i, p)) {
      assert entries[LineOf(p)] == (t.digest(Content(t, i, p)), Name(p));
    }
    forall n | n in listed ensures n in RequiredSet() {
      var k :| 0 <= k < |PARTS| && n == entries[k].1;
      assert PARTS[k] != Sums && n == Name(PARTS[k]);
    }
  }

  /** The directory holds nothing but parts and a list, and no part is a link. */
  ghost predicate Replaceable(was: Directory) { was.Keys <= RequiredSet() + {Name(Sums)} && NoLinks(was) }

  ghost predicate NoLinks(was: Directory) { forall p | p != Sums && Name(p) in was :: !was[Name(p)].Symlink? }

  /** It is sealed exactly when it was built where nothing else was and no link in the way. */
  lemma {:induction false} BuiltIsSealed(t: Tools, i: Inputs, was: Directory)
    requires Faithful(t)
    ensures Sealed(t, Written(t, i, was, |ORDER|)) <==> Replaceable(was)
  {
    hide Name, IsName, Content, Written, ListedIn, Faithful;
    AllWritten(t, i, was);
    BuiltIsListed(t, i, was);
    assert forall p | p != Sums :: Name(p) in RequiredSet();
    var dir := Written(t, i, was, |ORDER|);
    if NoLinks(was) {
      forall n | n in RequiredSet() ensures n in dir && dir[n].File? && t.digest(dir[n].content) == ListedIn(t, dir).value[n] {
        var p :| p != Sums && n == Name(p);
        assert dir[Name(p)] == File(Content(t, i, p));
      }
    } else {
      var p :| p != Sums && Name(p) in was && was[Name(p)].Symlink?;
      assert !dir[Name(p)].File?;
    }
  }

  /** The inputs agree with each other, with the expected commit and with the checkout. */
  ghost predicate InputsAgree(t: Tools, i: Inputs, c: Checkout, expected: Option<string>)
    requires t.renderAssets(i.assets).Some?
  {
    var md := t.renderAssets(i.assets).value;
    && BomMatches(t, i.bom, i.version, i.commit) && (expected.Some? ==> expected.value == i.commit)
    && i.licenses != [] && Consistent(t, i.assets) && '\r' !in md
    && c.assetDoc == Some(File(t.encode(md)))
    && c.notice == Some(File(i.notice)) && c.license == Some(File(i.license))
    && c.components.Some? && multiset(FromVersions(i.bom.components)) == multiset(c.components.value)
  }

  lemma {:induction false} TextReadBack(t: Tools, text: string)
    requires Faithful(t)
    ensures ReadText(t, t.encode(text)) == Some(Newlines(text))
  {
  }

  lemma {:induction false} ReadBack(t: Tools, d: Document)
    requires Faithful(t)
    ensures ReadJson(t, t.encode(t.dump(d))) == Some(d)
  {
    NewlinesKeep(t.dump(d));
  }

  lemma {:induction false} FilesWritten(t: Tools, i: Inputs, was: Directory)
    requires NoLinks(was)
    ensures var dir := Written(t, i, was, |ORDER|);
            forall p | p != Sums :: Name(p) in dir && dir[Name(p)] == File(Content(t, i, p))
  {
    hide Name, Written, Content;
    AllWritten(t, i, was);
  }

  lemma {:induction false} PartContents(t: Tools, i: Inputs)
    ensures Content(t, i, License) == i.license && Content(t, i, Notice) == i.notice
    ensures Content(t, i, ManifestJson) == t.encode(t.dump(ManifestDoc(Manifest(SCHEMA, i.version, i.commit))))
    ensures Content(t, i, Sbom) == t.encode(t.dump(BomDoc(i.bom)))
    ensures Content(t, i, LicensesJson) == t.encode(t.dump(LicensesDoc(i.licenses)))
    ensures Content(t, i, LicensesMd) == t.encode(t.renderLicenses(i.licenses))
    ensures Content(t, i, AssetJson) == t.encode(t.dump(AssetsDoc(i.assets)))
    ensures t.renderAssets(i.assets).Some? ==> Content(t, i, AssetMd) == t.encode(t.renderAssets(i.assets).value)
  {
    hide SumLines;
  }

  lemma {:induction false} BuiltAgrees(t: Tools, i: Inputs, was: Directory, c: Checkout, expected: Option<string>)
    requires Faithful(t) && ValidIdentity(i.version, i.commit) && t.renderAssets(i.assets).Some?
    requires AllFiles(Written(t, i, was, |ORDER|)) && NoLinks(was)
    ensures Agree(t, Written(t, i, was, |ORDER|), c, expected) <==> InputsAgree(t, i, c, expected)
  {
    hide Name, Written, ReadJson, DocumentsAgree, BomMatches, Consistent, ValidIdentity, Faithful, ReadText, NoLinks, Content;
    var md, manifest := t.renderAssets(i.assets).value, Manifest(SCHEMA, i.version, i.commit);
    FilesWritten(t, i, was);
    PartContents(t, i);
    ReadBack(t, ManifestDoc(manifest));
    ReadBack(t, BomDoc(i.bom));
    ReadBack(t, LicensesDoc(i.licenses));
    ReadBack(t, AssetsDoc(i.assets));
    TextReadBack(t, md);
    NewlinesKeep(md);
    InputDocuments(t, i, manifest, Some(Newlines(md)), c, expected);
  }

  lemma {:induction false} InputDocuments(t: Tools, i: Inputs, m: Manifest, md: Option<string>, c: Checkout,
                                          expected: Option<string>)
    requires m == Manifest(SCHEMA, i.version, i.commit) && ValidIdentity(i.version, i.commit)
    ensures DocumentsAgree(t, Some(ManifestDoc(m)), Some(BomDoc(i.bom)), Some(LicensesDoc(i.licenses)),
                           Some(AssetsDoc(i.assets)), md, c, expected) <==>
            && md.Some? && BomMatches(t, i.bom, i.version, i.commit) && (expected.Some? ==> expected.value == i.commit)
            && i.licenses != [] && Consistent(t, i.assets) && t.renderAssets(i.assets) == md
            && c.components.Some? && multiset(FromVersions(i.bom.components)) == multiset(c.components.value)
  {
    hide BomMatches, Consistent, ValidIdentity;
  }

  /** All nine files, once written, are accepted exactly when nothing else was in the directory, no link in
      the way, and the inputs agree. */
  lemma {:induction false} WrittenVerifies(t: Tools, i: Inputs, was: Directory, c: Checkout, expected: Option<string>)
    requires Faithful(t) && ValidIdentity(i.version, i.commit) && t.renderAssets(i.assets).Some?
    ensures Accepted(t, Written(t, i, was, |ORDER|), c, expected) <==>
            Replaceable(was) && InputsAgree(t, i, c, expected)
  {
    hide Name, Written, Agree, InputsAgree, ListedIn, ValidIdentity, Faithful, NoLinks;
    BuiltIsSealed(t, i, was);
    if Sealed(t, Written(t, i, was, |ORDER|)) {
      BuiltAgrees(t, i, was, c, expected);
    }
  }

  /** All files get written exactly when every name that is left can be written to, and the rendering
      that is left succeeds. */
  lemma {:induction false} StepsToTheEnd(t: Tools, i: Inputs, was: Directory, k: nat)
    requires k <= |ORDER|
    ensures Steps(t, i, was, k) == |ORDER| <==>
            && (forall p :: Turn(p) >= k ==> !Blocked(was, Name(p)))
            && (k <= 6 ==> t.renderAssets(i.assets).Some?)
    decreases |ORDER| - k
  {
    hide Name, Blocked;
    if k < |ORDER| {
      StepsToTheEnd(t, i, was, k + 1);
      assert forall p :: Turn(p) == k <==> p == ORDER[k];
    }
  }

  /** A build succeeds and what it leaves is accepted, exactly when the identity is valid, the assets can
      be rendered, no folder and no link to one is under a name it writes to, nothing else was in the
      directory, no part was a link, and the inputs agree. */
  lemma {:induction false} BuildThenVerify(t: Tools, i: Inputs, was: Directory, c: Checkout, expected: Option<string>)
    requires Faithful(t)
    ensures Completes(t, i, was) && Accepted(t, After(t, i, was), c, expected) <==>
            && ValidIdentity(i.version, i.commit) && t.renderAssets(i.assets).Some?
            && (forall p :: !Blocked(was, Name(p))) && Replaceable(was)
            && InputsAgree(t, i, c, expected)
  {
    hide Name, Written, Accepted, InputsAgree, ValidIdentity, Faithful, Replaceable, Blocked, Steps;
    StepsToTheEnd(t, i, was, 0);
    if Completes(t, i, was) {
      WrittenVerifies(t, i, was, c, expected);
    }
  }

  // ----- A build that failed

  lemma {:induction false} WhyStopped(t: Tools, i: Inputs, was: Directory, k: nat)
    requires k <= |ORDER|
    ensures var n := Steps(t, i, was, k);
            n < |ORDER| ==> Blocked(was, Name(ORDER[n])) || (n == 6 && t.renderAssets(i.assets).None?)
    decreases |ORDER| - k
  {
    hide Name, Blocked;
    if Steps(t, i, was, k) != k {
      WhyStopped(t, i, was, k + 1);
    }
  }

  lemma {:induction false} BlockedIsRejected(t: Tools, dir: Directory, p: Part)
    requires Blocked(dir, Name(p))
    ensures !Sealed(t, dir)
  {
    hide Name;
    if p != Sums {
      assert Name(p) in RequiredSet();
    }
  }

  lemma {:induction false} UnrenderedIsRejected(t: Tools, i: Inputs, was: Directory, c: Checkout,
                                                expected: Option<string>)
    requires Faithful(t) && t.renderAssets(i.assets).None?
    ensures !Accepted(t, Written(t, i, was, 6), c, expected)
  {
    hide Name, IsName, Written, ReadJson, ReadText, BomMatches, Consistent, ValidIdentity, Content, Faithful, ListedIn;
    var dir := Written(t, i, was, 6);
    assert ORDER[5] == AssetJson;
    WrittenAt(t, i, was, 6, Name(AssetJson));
    PartContents(t, i);
    ReadBack(t, AssetsDoc(i.assets));
    assert Name(AssetJson) in RequiredSet();
  }

  /** Where there was no list before, no stage of a build is sealed: the list comes last. */
  lemma {:induction false} HalfBuiltIsRejected(t: Tools, i: Inputs, was: Directory, k: nat)
    requires k < |ORDER| && Name(Sums) !in was
    ensures !Sealed(t, Written(t, i, was, k))
  {
    hide Name, IsName, Written, Content;
    AllDistinct();
    WrittenAt(t, i, was, k, Name(Sums));
    assert ORDER[8] == Sums;
  }

  lemma {:induction false} StoppedIsRejected(t: Tools, i: Inputs, was: Directory, c: Checkout,
                                             expected: Option<string>)
    requires Faithful(t) && Steps(t, i, was, 0) < |ORDER|
    ensures !Accepted(t, Written(t, i, was, Steps(t, i, was, 0)), c, expected)
  {
    hide Name, Written, Agree, Sealed, Content, Faithful, Blocked, Steps;
    var k := Steps(t, i, was, 0);
    WhyStopped(t, i, was, 0);
    NotYetWritten(t, i, was, k);
    if Blocked(was, Name(ORDER[k])) {
      BlockedIsRejected(t, Written(t, i, was, k), ORDER[k]);
    } else {
      UnrenderedIsRejected(t, i, was, c, expected);
    }
  }

  /** What a build leaves that fails is accepted exactly where it was refused for its identity, wrote
      nothing, and what was there before is accepted: once it writes, nothing verifies against any
      checkout, not even a bundle that was complete. What it has written is there. */
  lemma {:induction false} UnfinishedIsRejected(t: Tools, i: Inputs, was: Directory, c: Checkout,
                                                expected: Option<string>)
    requires Faithful(t) && !Completes(t, i, was)
    ensures Accepted(t, After(t, i, was), c, expected) <==>
            !ValidIdentity(i.version, i.commit) && Accepted(t, was, c, expected)
    ensures ValidIdentity(i.version, i.commit) ==>
              forall p | Turn(p) < Steps(t, i, was, 0) :: Read(After(t, i, was), Name(p)) == Some(Content(t, i, p))
  {
    hide Name, Written, Accepted, Content, Faithful, Steps, ValidIdentity;
    if ValidIdentity(i.version, i.commit) {
      var k := Steps(t, i, was, 0);
      StoppedIsRejected(t, i, was, c, expected);
      forall p | Turn(p) < k ensures Read(After(t, i, was), Name(p)) == Some(Content(t, i, p)) {
        WrittenAt(t, i, was, k, Name(p));
        assert ORDER[Turn(p)] == p;
      }
    }
  }
}
