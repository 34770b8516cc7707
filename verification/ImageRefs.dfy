/** Container image references: `parse_ref` of `scripts/ci/check-image-tag-immutability.py` and
    `split_image` of `scripts/release/generate_sbom.py`, two parsers of the same grammar. */
module ImageRefs {
  import opened Text
  import opened Wrappers

  // ----- parse_ref

  datatype Ref = Ref(repo: string, tag: Option<string>, digest: Option<string>)

  /** What follows the last slash. */
  function Tail(s: string): string { s[AfterLast(s, '/')..] }

  /** Repository and tag: the last colon counts, and only after the last slash. */
  function ParseName(s: string): (r: (string, Option<string>)) {
    if Has(Tail(s), ':') then
      var i := AfterLast(s, ':');
      assert i > 0 by { ColonInTail(s); }
      (s[..i - 1], Some(s[i..]))
    else (s, None)
  }

  lemma {:induction false} ColonInTail(s: string)
    requires Has(Tail(s), ':')
    ensures AfterLast(s, ':') > AfterLast(s, '/')
  {
    var k :| 0 <= k < |Tail(s)| && Tail(s)[k] == ':';
    assert s[AfterLast(s, '/') + k] == ':';
  }

  function ParseRef(ref: string): Ref {
    var at := FirstOf(ref, '@');
    if at < |ref| then
      var (repo, tag) := ParseName(ref[..at]);
      Ref(repo, tag, Some(ref[at + 1..]))
    else
      var (repo, tag) := ParseName(ref);
      Ref(repo, tag, None)
  }

  function PrintName(repo: string, tag: Option<string>): string {
    match tag case None => repo case Some(t) => repo + [':'] + t
  }

  function Print(r: Ref): string {
    var name := PrintName(r.repo, r.tag);
    match r.digest case None => name case Some(d) => name + ['@'] + d
  }

  /** What a parsed reference looks like: no `@` before the digest, no colon and no slash in the tag,
      and without a tag no colon after the last slash. A registry port is no tag. */
  ghost predicate WellFormedName(repo: string, tag: Option<string>) {
    match tag
    case None => !Has(Tail(repo), ':')
    case Some(t) => !Has(t, ':') && !Has(t, '/')
  }

  ghost predicate WellFormed(r: Ref) {
    !Has(PrintName(r.repo, r.tag), '@') && WellFormedName(r.repo, r.tag)
  }

  lemma {:induction false} NameRejoins(s: string)
    ensures var (repo, tag) := ParseName(s);
            PrintName(repo, tag) == s && WellFormedName(repo, tag)
  {
    if Has(Tail(s), ':') {
      ColonInTail(s);
      var i := AfterLast(s, ':');
      assert s == s[..i - 1] + [':'] + s[i..];
    }
  }

  lemma {:induction false} NameParses(repo: string, tag: Option<string>)
    requires WellFormedName(repo, tag)
    ensures ParseName(PrintName(repo, tag)) == (repo, tag)
  {
    hide AfterLast;
    if tag.Some? {
      var t := tag.value;
      var s := repo + [':'] + t;
      assert forall k | 0 <= k < |t| :: s[|repo| + 1 + k] == t[k];
      var i := AfterLast(s, '/');
      assert i > 0 ==> s[i - 1] == '/';
      assert i <= |repo|;
      assert Tail(s)[|repo| - i] == ':';
      assert s[..|repo|] == repo && s[|repo| + 1..] == t;
    }
  }

  /** Printing what `parse_ref` returns gives the reference back, whatever it is. */
  lemma {:induction false} Rejoins(ref: string)
    ensures Print(ParseRef(ref)) == ref && WellFormed(ParseRef(ref))
  {
    var at := FirstOf(ref, '@');
    if at < |ref| {
      NameRejoins(ref[..at]);
      assert ref == ref[..at] + ['@'] + ref[at + 1..];
    } else {
      NameRejoins(ref);
    }
  }

  /** Parsing what was printed gives the parts back exactly when the parts are well formed. */
  lemma {:induction false} ParsesPrinted(r: Ref)
    ensures ParseRef(Print(r)) == r <==> WellFormed(r)
  {
    Rejoins(Print(r));
    if WellFormed(r) {
      var name := PrintName(r.repo, r.tag);
      NameParses(r.repo, r.tag);
      var s := Print(r);
      FirstOfIs(s, '@', |name|);
      if r.digest.Some? {
        assert s[..|name|] == name && s[|name| + 1..] == r.digest.value;
      }
    }
  }

  // ----- split_image

  predicate HasBraces(s: string) { exists k | 0 <= k < |s| - 1 :: s[k] == '{' && s[k + 1] == '{' }

  /** `None` stands for the error the script raises. */
  function SplitImage(ref: string): Option<(string, string)> {
    var at := FirstOf(ref, '@');
    if at < |ref| then
      var name := ref[..at];
      var bare := if Has(Tail(name), ':') then CutTag(name) else name;
      Checked(ref, bare, ref[at + 1..])
    else if !Has(Tail(ref), ':') then None
    else Checked(ref, CutTag(ref), ref[AfterLast(ref, ':')..])
  }

  /** `s.rsplit(":", 1)[0]` */
  function CutTag(s: string): string {
    var i := AfterLast(s, ':');
    if i == 0 then s else s[..i - 1]
  }

  function Checked(ref: string, name: string, version: string): Option<(string, string)> {
    if name == "" || version == "" || HasBraces(ref) then None else Some((name, version))
  }

  /** The version of a reference: its digest, or its tag. */
  function Version(r: Ref): Option<string> { if r.digest.Some? then r.digest else r.tag }

  /** The two parsers agree. `split_image` succeeds exactly when `parse_ref` finds a repository and a
      version, neither of them empty, and the reference is no template; it returns these two. */
  lemma {:induction false} ParsersAgree(ref: string)
    ensures var r := ParseRef(ref);
            SplitImage(ref) ==
              if r.repo != "" && Version(r).Some? && Version(r).value != "" && !HasBraces(ref)
              then Some((r.repo, Version(r).value)) else None
  {
    var at := FirstOf(ref, '@');
    var name := if at < |ref| then ref[..at] else ref;
    if Has(Tail(name), ':') {
      ColonInTail(name);
    }
    assert ref[..|ref|] == ref;
  }
}
