/** What a verified bundle holds, file by file and field by field. */
module EvidenceFields {
  import opened Text
  import opened Wrappers
  import opened EvidenceBundle

  // ----- Components

  /** The components from VERSIONS.md with that name. */
  function Marked(components: seq<Component>, name: string): set<nat> {
    set i: nat | i < |components| && components[i].fromVersions && components[i].name == name
  }

  lemma {:induction false} FromVersionsNext(front: seq<Component>, x: Component)
    ensures FromVersions(front + [x]) == FromVersions(front) + if x.fromVersions then [x.name] else []
  {
    var all := front + [x];
    if front == [] {
      assert all[1..] == [];
    } else {
      FromVersionsNext(front[1..], x);
      assert all[1..] == front[1..] + [x];
    }
  }

  lemma {:induction false} MarkedNext(front: seq<Component>, x: Component, name: string)
    ensures |Marked(front + [x], name)| == |Marked(front, name)| + if x.fromVersions && x.name == name then 1 else 0
  {
    var more: set<nat> := if x.fromVersions && x.name == name then {|front|} else {};
    assert Marked(front + [x], name) == Marked(front, name) + more;
  }

  /** Every name counts as often as a component from VERSIONS.md has it. */
  lemma {:induction false} VersionsCounted(components: seq<Component>, name: string)
    ensures multiset(FromVersions(components))[name] == |Marked(components, name)|
  {
    if components != [] {
      var front, x := components[..|components| - 1], components[|components| - 1];
      assert components == front + [x];
      VersionsCounted(front, name);
      FromVersionsNext(front, x);
      MarkedNext(front, x, name);
      hide Marked, FromVersions;
    }
  }

  /** The shipped components and those of the checkout have the same names, equally often. */
  ghost predicate SameNames(components: seq<Component>, names: seq<string>) {
    forall name :: |Marked(components, name)| == multiset(names)[name]
  }

  lemma {:induction false} SameNamesIff(components: seq<Component>, names: seq<string>)
    ensures multiset(FromVersions(components)) == multiset(names) <==> SameNames(components, names)
  {
    hide FromVersions, Marked;
    forall name ensures multiset(FromVersions(components))[name] == |Marked(components, name)| {
      VersionsCounted(components, name);
    }
  }

  /** A component without the mark makes no difference; one with it needs its name in the checkout. */
  lemma {:induction false} ComponentAdded(components: seq<Component>, x: Component, names: seq<string>)
    ensures !x.fromVersions ==> (SameNames(components + [x], names) <==> SameNames(components, names))
    ensures x.fromVersions ==> (SameNames(components + [x], names + [x.name]) <==> SameNames(components, names))
  {
    hide Marked;
    forall name
      ensures |Marked(components + [x], name)| == |Marked(components, name)| + if x.fromVersions && x.name == name then 1 else 0
      ensures multiset(names + [x.name])[name] == multiset(names)[name] + if x.name == name then 1 else 0
    {
      MarkedNext(components, x, name);
    }
  }

  // ----- Identities

  predicate IsHexDigit(c: char) { '0' <= c <= '9' || 'a' <= c <= 'f' }

  /** Digits, at least one, from `i` to `j`. */
  predicate AreDigits(s: string, i: nat, j: nat) {
    i < j <= |s| && forall k | i <= k < j :: '0' <= s[k] <= '9'
  }

  /** From `k` on there is nothing, or a hyphen and then letters, digits and dots, at least one. */
  predicate IsSuffix(s: string, k: nat) {
    || k == |s|
    || (k + 1 < |s| && s[k] == '-' && forall i | k < i < |s| ::
          'a' <= s[i] <= 'z' || 'A' <= s[i] <= 'Z' || '0' <= s[i] <= '9' || s[i] == '.')
  }

  /** `v`, three numbers, the first two ended by a dot, and a suffix. */
  ghost predicate VersionAt(s: string, i: nat, j: nat, k: nat) {
    && s != "" && s[0] == 'v' && AreDigits(s, 1, i) && AreDigits(s, i + 1, j) && AreDigits(s, j + 1, k)
    && s[i] == '.' && s[j] == '.' && IsSuffix(s, k)
  }

  lemma {:induction false} VersionIff(s: string)
    ensures IsVersion(s) <==> exists i: nat, j: nat, k: nat :: VersionAt(s, i, j, k)
  {
    hide DigitsEnd;
    if IsVersion(s) {
      var i := DigitsEnd(s, 1);
      var j := DigitsEnd(s, i + 1);
      assert VersionAt(s, i, j, DigitsEnd(s, j + 1));
    }
    if i: nat, j: nat, k: nat :| VersionAt(s, i, j, k) {
      VersionFound(s, i, j, k);
    }
  }

  lemma {:induction false} VersionFound(s: string, i: nat, j: nat, k: nat)
    requires VersionAt(s, i, j, k)
    ensures IsVersion(s)
  {
    hide DigitsEnd;
    DigitsEndAt(s, 1, i);
    DigitsEndAt(s, i + 1, j);
    DigitsEndAt(s, j + 1, k);
  }

  /** A version as above and the 40 lower-case hexadecimal digits of a commit. */
  ghost predicate IsIdentity(version: string, commit: string) {
    && (exists i: nat, j: nat, k: nat :: VersionAt(version, i, j, k))
    && |commit| == 40 && forall i | 0 <= i < 40 :: IsHexDigit(commit[i])
  }

  lemma {:induction false} IdentityIff(version: string, commit: string)
    ensures ValidIdentity(version, commit) <==> IsIdentity(version, commit)
  {
    hide IsVersion, VersionAt;
    VersionIff(version);
  }

  // ----- The list of digests

  /** A line of `SHA256SUMS`: 64 lower-case hexadecimal digits, two spaces, and a name of letters, digits,
      dots, underscores and hyphens. */
  lemma {:induction false} LineIff(line: string, digest: string, name: string)
    ensures ParseLine(line) == Some((digest, name)) <==>
            && line == digest + "  " + name && |digest| == 64 && (forall i | 0 <= i < 64 :: IsHexDigit(digest[i]))
            && name != "" && (forall i | 0 <= i < |name| :: IsListed(name[i]))
  {
    LineRoundTrip(line, digest, name);
    hide ParseLine;
  }

  predicate IsListed(c: char) {
    'a' <= c <= 'z' || 'A' <= c <= 'Z' || '0' <= c <= '9' || c == '.' || c == '_' || c == '-'
  }

  /** The characters at which `str.splitlines()` cuts. */
  lemma {:induction false} BreaksAre(c: char)
    ensures IsLineBreak(c) <==> c as int in {0x0A, 0x0B, 0x0C, 0x0D, 0x1C, 0x1D, 0x1E, 0x85, 0x2028, 0x2029}
  {
  }

  // ----- Reading and writing

  /** Reading a text file turns `\r\n` and any other `\r` into one `\n`. */
  lemma {:induction false} NewlinesAre(c: char, rest: string)
    ensures Newlines("") == ""
    ensures c != '\r' ==> Newlines([c] + rest) == [c] + Newlines(rest)
    ensures Newlines(['\r', '\n'] + rest) == ['\n'] + Newlines(rest)
    ensures rest == "" || rest[0] != '\n' ==> Newlines(['\r'] + rest) == ['\n'] + Newlines(rest)
  {
    assert ([c] + rest)[1..] == rest && (['\r', '\n'] + rest)[2..] == rest && (['\r'] + rest)[1..] == rest;
  }

  /** What can be read, and what is not there or a link to what is not there, can be written; then it reads
      as what was written. Nothing else can be written. */
  lemma {:induction false} WritableIff(dir: Directory, name: string, b: Bytes)
    ensures !Blocked(dir, name) <==>
            name !in dir || Read(dir, name).Some? || dir[name] == Symlink(ToNothing)
    ensures Read(dir[name := Put(dir, name, b)], name) == Some(b)
    ensures Put(dir, name, b).Symlink? <==> name in dir && dir[name].Symlink?
  {
  }

  // ----- The files

  lemma {:induction false} NamesAre()
    ensures Name(ManifestJson) == "manifest.json" && Name(Sbom) == "sbom.cdx.json"
    ensures Name(LicensesJson) == "release-license-inventory.json"
    ensures Name(LicensesMd) == "release-license-inventory.md"
    ensures Name(AssetJson) == "platform-asset-inventory.json" && Name(AssetMd) == "platform-asset-inventory.md"
    ensures Name(Notice) == "NOTICE" && Name(License) == "LICENSE" && Name(Sums) == "SHA256SUMS"
  {
  }

  /** The files that a bundle must hold. */
  lemma {:induction false} RequiredNames()
    ensures RequiredSet() == {"manifest.json", "sbom.cdx.json", "release-license-inventory.json",
      "release-license-inventory.md", "platform-asset-inventory.json", "platform-asset-inventory.md", "NOTICE", "LICENSE"}
  {
    NamesAre();
    hide Name;
    assert forall p: Part | p != Sums :: Name(p) in RequiredSet();
    forall n | n in RequiredSet()
      ensures n in {Name(ManifestJson), Name(Sbom), Name(LicensesJson), Name(LicensesMd), Name(AssetJson), Name(AssetMd),
                    Name(Notice), Name(License)}
    {
      var p: Part :| p != Sums && n == Name(p);
      assert p in {ManifestJson, Sbom, LicensesJson, LicensesMd, AssetJson, AssetMd, Notice, License};
    }
  }

  /** The sections hold something and are counted, and the Markdown is their rendering. */
  predicate IsInventory(t: Tools, a: Assets, md: string) {
    && a.charts == t.charts && a.profiles == t.profiles && t.renderAssets(a) == Some(md)
    && |a.workloads| == a.summary.workloads > 0 && |a.customResources| == a.summary.customResources > 0
    && |a.images| == a.summary.images > 0 && |a.storage| == a.summary.storageAssets > 0
  }

  /** The documents are of their kinds and agree with each other, with the expected commit and with the
      components of the checkout. */
  ghost predicate DocumentsFit(t: Tools, manifest: Option<Document>, bom: Option<Document>, licenses: Option<Document>,
                               assets: Option<Document>, md: Option<string>, c: Checkout, expected: Option<string>)
  {
    match (manifest, bom, licenses, assets, md)
    case (Some(ManifestDoc(m)), Some(BomDoc(b)), Some(LicensesDoc(ls)), Some(AssetsDoc(a)), Some(text)) =>
      && m.schema == "beluga-release-evidence/v1" && IsIdentity(m.version, m.commit)
      && (expected == None || expected == Some(m.commit))
      && t.validBom(b) && b.commit == Some(m.commit) && b.version == Some(m.version)
      && ls != [] && IsInventory(t, a, text)
      && c.components.Some? && SameNames(b.components, c.components.value)
    case _ => false
  }

  lemma {:induction false} DocumentsIff(t: Tools, manifest: Option<Document>, bom: Option<Document>,
                                        licenses: Option<Document>, assets: Option<Document>, md: Option<string>,
                                        c: Checkout, expected: Option<string>)
    ensures DocumentsAgree(t, manifest, bom, licenses, assets, md, c, expected) <==>
            DocumentsFit(t, manifest, bom, licenses, assets, md, c, expected)
  {
    hide FromVersions, SameNames, ValidIdentity, IsIdentity;
    if manifest.Some? && manifest.value.ManifestDoc? {
      IdentityIff(manifest.value.manifest.version, manifest.value.manifest.commit);
    }
    if bom.Some? && bom.value.BomDoc? && c.components.Some? {
      SameNamesIff(bom.value.bom.components, c.components.value);
    }
  }

  predicate IsFile(dir: Directory, name: string) { name in dir && dir[name].File? }

  /** A bundle is accepted when its documents, under these names, fit, and three of its files are those of
      the checkout. */
  lemma {:induction false} AgreeIff(t: Tools, dir: Directory, c: Checkout, expected: Option<string>)
    requires AllFiles(dir)
    ensures IsFile(dir, "manifest.json") && IsFile(dir, "sbom.cdx.json") && IsFile(dir, "release-license-inventory.json")
    ensures IsFile(dir, "platform-asset-inventory.json") && IsFile(dir, "platform-asset-inventory.md")
    ensures IsFile(dir, "NOTICE") && IsFile(dir, "LICENSE")
    ensures Agree(t, dir, c, expected) <==>
            && DocumentsFit(t, ReadJson(t, dir["manifest.json"].content), ReadJson(t, dir["sbom.cdx.json"].content),
                            ReadJson(t, dir["release-license-inventory.json"].content),
                            ReadJson(t, dir["platform-asset-inventory.json"].content),
                            ReadText(t, dir["platform-asset-inventory.md"].content), c, expected)
            && c.assetDoc == Some(dir["platform-asset-inventory.md"])
            && c.notice == Some(dir["NOTICE"]) && c.license == Some(dir["LICENSE"])
  {
    NamesAre();
    hide ReadJson, ReadText, DocumentsAgree, DocumentsFit, Name;
    assert forall p: Part | p != Sums :: Name(p) in RequiredSet() && IsFile(dir, Name(p));
    assert IsFile(dir, Name(ManifestJson)) && IsFile(dir, Name(Sbom)) && IsFile(dir, Name(LicensesJson));
    assert IsFile(dir, Name(AssetJson)) && IsFile(dir, Name(AssetMd)) && IsFile(dir, Name(Notice)) && IsFile(dir, Name(License));
    DocumentsIff(t, ReadJson(t, dir[Name(ManifestJson)].content), ReadJson(t, dir[Name(Sbom)].content),
                 ReadJson(t, dir[Name(LicensesJson)].content), ReadJson(t, dir[Name(AssetJson)].content),
                 ReadText(t, dir[Name(AssetMd)].content), c, expected);
  }
}
