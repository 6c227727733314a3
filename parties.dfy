/**
 * The client and the vendor of an invoice (`extract_invoice_data`,
 * app/ai_utils.py): each is read after its own labels, then after the
 * "razón social" labels, and when either is still missing a line that
 * mentions "empresa de" is split into a client name and a vendor
 * starting with "Empresa de", filling only the missing fields.
 *
 * The split pattern
 *   `(?P<cli>[A-ZÁÉÍÓÚÑ][^ \n]+(?:\s+[A-ZÁÉÍÓÚÑa-záéíóúñü]+)*)\s+(?P<prov>Empresa\s+de[^\n]+)`
 * is searched case-insensitively. A match starting at `s` is described by
 * its cut points: `[^ \n]+` runs to `a`, the words `(?:\s+[letters]+)*` to
 * `e`, then the vendor `Empresa\s+de[^\n]+` from `p` (after the whitespace
 * `\s+` from `e`), with the word `de` at `r`, to `t`.
 */
module Parties {
  import opened Wrappers
  import opened Text
  import opened Patterns
  import opened Labels
  import opened Scan

  // ---------------------------------------------------------------------
  // Character classes of the split pattern, under re.IGNORECASE
  // ---------------------------------------------------------------------

  predicate IsAsciiLetter(c: char) {
    'a' <= c <= 'z' || 'A' <= c <= 'Z'
  }

  /** `[A-ZÁÉÍÓÚÑ]` ignoring case. */
  predicate IsNameHead(c: char) {
    IsAsciiLetter(c)
    || c == '\U{C1}' || c == '\U{C9}' || c == '\U{CD}' || c == '\U{D3}' || c == '\U{DA}' || c == '\U{D1}'
    || c == '\U{E1}' || c == '\U{E9}' || c == '\U{ED}' || c == '\U{F3}' || c == '\U{FA}' || c == '\U{F1}'
  }

  /** `[A-ZÁÉÍÓÚÑa-záéíóúñü]` ignoring case. */
  predicate IsNameLetter(c: char) {
    IsNameHead(c) || c == '\U{FC}' || c == '\U{DC}'
  }

  /** `[^ \n]`. */
  predicate IsNameRunChar(c: char) {
    c != ' ' && c != '\n'
  }

  predicate IsWordsChar(c: char) {
    IsSpace(c) || IsNameLetter(c)
  }

  predicate NotNewline(c: char) {
    c != '\n'
  }

  const Empresa: string := "empresa"
  const De: string := "de"

  // ---------------------------------------------------------------------
  // The shape of a match
  // ---------------------------------------------------------------------

  /**
   * `L[a..e]` matches `(?:\s+[letters]+)*`. Whitespace and the letters are
   * disjoint, so this is: empty, or whitespace first, a letter last and
   * nothing but whitespace and letters in between.
   */
  predicate Words(L: string, a: nat, e: nat) {
    a == e || (a < e <= |L| && IsSpace(L[a]) && IsNameLetter(L[e - 1]) && AllIn(L, a, e, IsWordsChar))
  }

  /** The cut points of the vendor part: `\s+` from `e` to `p`, `Empresa` at `p`, `\s+`, `de` at `r`, `[^\n]+` to `t`. */
  datatype Vendor = Vendor(p: nat, r: nat, t: nat)

  /** `\s+Empresa\s+de[^\n]+` from `e`, the last run taken whole (it is greedy and ends the pattern). */
  predicate VendorShape(L: string, e: nat, v: Vendor) {
    && e < v.p && AllIn(L, e, v.p, IsSpace) && WordCI(L, v.p, Empresa)
    && v.p + |Empresa| < v.r && AllIn(L, v.p + |Empresa|, v.r, IsSpace) && WordCI(L, v.r, De)
    && v.r + |De| < v.t && AllIn(L, v.r + |De|, v.t, NotNewline) && (v.t == |L| || L[v.t] == '\n')
  }

  /** The cut points of a match starting at `s`. */
  datatype Split = Split(s: nat, a: nat, e: nat, v: Vendor)

  /** The ways the split pattern matches `L`. */
  predicate SplitShape(L: string, m: Split) {
    && m.s < |L| && IsNameHead(L[m.s])
    && m.s + 1 < m.a && AllIn(L, m.s + 1, m.a, IsNameRunChar)
    && m.a <= m.e && Words(L, m.a, m.e)
    && VendorShape(L, m.e, m.v)
  }

  // ---------------------------------------------------------------------
  // The search
  // ---------------------------------------------------------------------

  /** The vendor part that follows `e`, if any; the only one there is. */
  function VendorAt(L: string, e: nat): (r: Option<Vendor>)
    requires e <= |L|
    ensures r.Some? ==> VendorShape(L, e, r.value)
  {
    var p := SkipWhile(L, e, IsSpace);
    if p == e || !WordCI(L, p, Empresa) then None
    else
      var r := SkipWhile(L, p + |Empresa|, IsSpace);
      if r == p + |Empresa| || !WordCI(L, r, De) then None
      else
        var t := SkipWhile(L, r + |De|, NotNewline);
        if t == r + |De| then None else Some(Vendor(p, r, t))
  }

  /** The words from `a` can end at `e` and be followed by the vendor part. */
  predicate Ends(L: string, a: nat, e: nat) {
    a <= e <= |L| && Words(L, a, e) && VendorAt(L, e).Some?
  }

  /** The last end of the words from `a`: the longest client the backtracking tries first. */
  function BestEnd(L: string, a: nat): (r: Option<nat>)
    requires a <= |L|
  {
    LastIn(a, |L|, (e: nat) => Ends(L, a, e))
  }

  /** Some end works for the words from `a`. */
  predicate HasEnd(L: string, a: nat) {
    a <= |L| && BestEnd(L, a).Some?
  }

  /**
   * The match starting exactly at `s`, as `(a, e)`, if any: the longest
   * `[^ \n]+` run for which some end works, then that run's last end.
   */
  function MatchAt(L: string, s: nat): (r: Option<(nat, nat)>)
    ensures r.Some? ==> r.value.1 <= |L| && VendorAt(L, r.value.1).Some?
                        && SplitShape(L, Split(s, r.value.0, r.value.1, VendorAt(L, r.value.1).value))
  {
    if s >= |L| || !IsNameHead(L[s]) then None
    else
      var hi := SkipWhile(L, s + 1, IsNameRunChar);
      if hi < s + 2 then None
      else
        match LastIn(s + 2, hi, (a: nat) => HasEnd(L, a))
        case None => None
        case Some(a) => Some((a, BestEnd(L, a).value))
  }

  /** `re.search`: the first start where the pattern matches. */
  function SearchStart(L: string): Option<nat> {
    FirstIn(0, |L|, (s: nat) => MatchAt(L, s).Some?)
  }

  /** The match `re.search` reports on `L`, if any. */
  function SearchSplit(L: string): (r: Option<Split>)
    ensures r.Some? ==> SplitShape(L, r.value)
  {
    match SearchStart(L)
    case None => None
    case Some(s) =>
      var (a, e) := MatchAt(L, s).value;
      Some(Split(s, a, e, VendorAt(L, e).value))
  }

  // ---------------------------------------------------------------------
  // The search finds the match the regular-expression engine reports
  // ---------------------------------------------------------------------

  /** The vendor part after `e` is unique. */
  lemma VendorUnique(L: string, e: nat, v: Vendor)
    requires VendorShape(L, e, v)
    ensures VendorAt(L, e) == Some(v)
  {
    VendorCuts(L, e, v);
  }

  /** Each run of the vendor part stops where the next piece starts. */
  lemma VendorCuts(L: string, e: nat, v: Vendor)
    requires VendorShape(L, e, v)
    ensures SkipWhile(L, e, IsSpace) == v.p
    ensures SkipWhile(L, v.p + |Empresa|, IsSpace) == v.r
    ensures SkipWhile(L, v.r + |De|, NotNewline) == v.t
  {
    assert LowerChar(L[v.p + 0]) == Empresa[0] == 'e';
    SkipWhileUnique(L, e, v.p, IsSpace);
    assert LowerChar(L[v.r + 0]) == De[0] == 'd';
    SkipWhileUnique(L, v.p + |Empresa|, v.r, IsSpace);
    SkipWhileUnique(L, v.r + |De|, v.t, NotNewline);
  }

  /**
   * Whenever the pattern can match `L` some way, the search succeeds; it
   * starts no later, and from the same start its `[^ \n]+` run is at least
   * as long, and with the same run its client at least as long: the match
   * the backtracking engine tries first.
   */
  lemma SplitPriority(L: string, m': Split)
    requires SplitShape(L, m')
    ensures SearchSplit(L).Some?
    ensures var m := SearchSplit(L).value;
      && m.s <= m'.s
      && (m.s == m'.s ==> m'.a < m.a || (m'.a == m.a && m'.e <= m.e))
  {
    VendorUnique(L, m'.e, m'.v);
    MatchAtOf(L, m'.s, m'.a, m'.e);
    SearchStartOf(L, m'.s);
  }

  /** An end that works is no later than the last one. */
  lemma HasEndOf(L: string, a: nat, e: nat)
    requires Ends(L, a, e)
    ensures HasEnd(L, a) && e <= BestEnd(L, a).value
  {
    var p := (k: nat) => Ends(L, a, k);
    assert p(e);
  }

  /** A match at `s` makes the search at that start succeed, with a run and a client no shorter. */
  lemma MatchAtOf(L: string, s: nat, a: nat, e: nat)
    requires s < |L| && IsNameHead(L[s]) && s + 1 < a && AllIn(L, s + 1, a, IsNameRunChar)
    requires Ends(L, a, e)
    ensures MatchAt(L, s).Some?
    ensures var r := MatchAt(L, s).value;
      a <= r.0 && (r.0 == a ==> e <= r.1)
  {
    HasEndOf(L, a, e);
    var hi := SkipWhile(L, s + 1, IsNameRunChar);
    SkipWhileCovers(L, s + 1, a, IsNameRunChar);
    LongestRunOf(L, s, hi, a);
  }

  /** A run end at which some end works bounds the run the search picks. */
  lemma LongestRunOf(L: string, s: nat, hi: nat, a: nat)
    requires s + 2 <= a <= hi && HasEnd(L, a)
    ensures var r := LastIn(s + 2, hi, (k: nat) => HasEnd(L, k));
      r.Some? && a <= r.value
  {
    var p := (k: nat) => HasEnd(L, k);
    assert p(a);
  }

  /** A start where the pattern matches bounds the start the search reports. */
  lemma SearchStartOf(L: string, s: nat)
    requires MatchAt(L, s).Some?
    ensures SearchStart(L).Some? && SearchStart(L).value <= s
  {
    var p := (k: nat) => MatchAt(L, k).Some?;
    assert s < |L|;
    assert p(s);
  }

  // ---------------------------------------------------------------------
  // Client and vendor
  // ---------------------------------------------------------------------

  const ClientLabels: seq<string> := ["cliente", "client"]
  const VendorLabels: seq<string> := ["emisor", "proveedor", "vendedor"]
  const CompanyLabels: seq<string> := ["razón social", "razon social"]
  const CompanyMark: string := "empresa de"

  /** The client and the vendor a line splits into, stripped. */
  function SplitOf(L: string): (r: Option<(string, string)>) {
    match SearchSplit(L)
    case None => None
    case Some(m) => Some((Strip(L[m.s..m.e]), Strip(L[m.v.p..m.v.t])))
  }

  /** A line the heuristic looks at: it mentions "empresa de" in any case. */
  predicate Mentions(line: string) {
    Contains(Lower(line), CompanyMark)
  }

  /** The split of a line the heuristic looks at; nothing for the other lines. */
  function MentionedSplit(line: string): Option<(string, string)> {
    if Mentions(line) then SplitOf(line) else None
  }

  /** The split of the first line that mentions "empresa de" and matches the pattern. */
  function FirstSplit(lines: seq<string>): Option<(string, string)> {
    FirstSome(lines, MentionedSplit)
  }

  /** The client found by labels alone. */
  function LabelledClient(text: string): string {
    var c := AfterAnyLabel(text, ClientLabels, DefaultWindow);
    if c != [] then c else AfterAnyLabel(text, CompanyLabels, DefaultWindow)
  }

  /** The vendor found by labels alone. */
  function LabelledVendor(text: string): string {
    var v := AfterAnyLabel(text, VendorLabels, DefaultWindow);
    if v != [] then v else AfterAnyLabel(text, CompanyLabels, DefaultWindow)
  }

  /** The client and the vendor `extract_invoice_data` reports. */
  function Parties(text: string): (string, string) {
    var client := LabelledClient(text);
    var vendor := LabelledVendor(text);
    if (client == [] || vendor == []) && Contains(Lower(text), CompanyMark) then
      match FirstSplit(SplitLines(text))
      case Some((c, v)) => (if client == [] then c else client, if vendor == [] then v else vendor)
      case None => (client, vendor)
    else (client, vendor)
  }

  /**
   * The client and vendor steps as the source writes them: two fallback
   * chains, then a loop over the lines that stops at the first line that
   * splits.
   */
  method FindParties(text: string) returns (client: string, vendor: string)
    ensures (client, vendor) == Parties(text)
  {
    client := FindAfterAny(text, ClientLabels, DefaultWindow);
    if client == [] {
      client := FindAfterAny(text, CompanyLabels, DefaultWindow);
    }
    vendor := FindAfterAny(text, VendorLabels, DefaultWindow);
    if vendor == [] {
      vendor := FindAfterAny(text, CompanyLabels, DefaultWindow);
    }
    assert client == LabelledClient(text) && vendor == LabelledVendor(text);
    if (client == [] || vendor == []) && Contains(Lower(text), CompanyMark) {
      var m := FindSplit(SplitLines(text));
      PartiesSplit(text, client, vendor);
      if m.Some? {
        if client == [] {
          client := m.value.0;
        }
        if vendor == [] {
          vendor := m.value.1;
        }
      }
    } else {
      PartiesLabelled(text, client, vendor);
    }
  }

  /** When both labelled parties are found, or nothing mentions "empresa de", the labels decide. */
  lemma PartiesLabelled(text: string, client: string, vendor: string)
    requires client == LabelledClient(text) && vendor == LabelledVendor(text)
    requires !((client == [] || vendor == []) && Contains(Lower(text), CompanyMark))
    ensures Parties(text) == (client, vendor)
  {
  }

  /** Otherwise the first line that splits fills in what the labels missed. */
  lemma PartiesSplit(text: string, client: string, vendor: string)
    requires client == LabelledClient(text) && vendor == LabelledVendor(text)
    requires (client == [] || vendor == []) && Contains(Lower(text), CompanyMark)
    ensures Parties(text) == match FirstSplit(SplitLines(text))
      case Some((c, v)) => (if client == [] then c else client, if vendor == [] then v else vendor)
      case None => (client, vendor)
  {
  }

  /** The loop over the lines, stopping at the first line that mentions "empresa de" and splits. */
  method FindSplit(lines: seq<string>) returns (r: Option<(string, string)>)
    ensures r == FirstSplit(lines)
  {
    var i := 0;
    while i < |lines|
      invariant 0 <= i <= |lines|
      invariant FirstSplit(lines) == FirstSome(lines[i..], MentionedSplit)
    {
      FirstSomeStep(lines, i, MentionedSplit);
      var line := lines[i];
      if Mentions(line) {
        var m := SplitOf(line);
        if m.Some? {
          return m;
        }
      }
      i := i + 1;
    }
    assert lines[i..] == [];
    return None;
  }

  // ---------------------------------------------------------------------
  // Properties
  // ---------------------------------------------------------------------

  /**
   * The heuristic takes the first line that mentions "empresa de" and
   * splits; it finds nothing exactly when no such line splits.
   */
  lemma FirstSplitIsFirst(lines: seq<string>)
    ensures FirstSplit(lines).None? <==>
      forall n :: 0 <= n < |lines| ==> !(Mentions(lines[n]) && SplitOf(lines[n]).Some?)
    ensures FirstSplit(lines).Some? ==>
      exists n :: 0 <= n < |lines| && Mentions(lines[n]) && SplitOf(lines[n]) == FirstSplit(lines)
                  && forall k :: 0 <= k < n ==> !(Mentions(lines[k]) && SplitOf(lines[k]).Some?)
  {
    FirstSomeIsFirst(lines, MentionedSplit);
  }

  /** A client found by a label is never overwritten by the heuristic. */
  lemma LabelledClientKept(text: string)
    requires LabelledClient(text) != []
    ensures Parties(text).0 == LabelledClient(text)
  {
  }

  /** A vendor found by a label is never overwritten by the heuristic. */
  lemma LabelledVendorKept(text: string)
    requires LabelledVendor(text) != []
    ensures Parties(text).1 == LabelledVendor(text)
  {
  }

  /**
   * A client that no label gives comes from the split of the first line
   * that mentions "empresa de" and matches, and only when the text
   * mentions "empresa de" at all.
   */
  lemma SplitClient(text: string)
    requires Parties(text).0 != LabelledClient(text)
    ensures LabelledClient(text) == [] && Contains(Lower(text), CompanyMark)
    ensures FirstSplit(SplitLines(text)).Some? && Parties(text).0 == FirstSplit(SplitLines(text)).value.0
  {
  }

  /** The same for the vendor. */
  lemma SplitVendor(text: string)
    requires Parties(text).1 != LabelledVendor(text)
    ensures LabelledVendor(text) == [] && Contains(Lower(text), CompanyMark)
    ensures FirstSplit(SplitLines(text)).Some? && Parties(text).1 == FirstSplit(SplitLines(text)).value.1
  {
  }

  /** Both parts of a split are non-empty: the client starts with a name letter, the vendor with "Empresa". */
  lemma SplitNonEmpty(L: string)
    ensures SplitOf(L).Some? ==> SplitOf(L).value.0 != [] && SplitOf(L).value.1 != []
  {
    if SearchSplit(L).Some? {
      var m := SearchSplit(L).value;
      assert L[m.s..m.e][0] == L[m.s];
      StripNonBlank(L[m.s..m.e], 0);
      assert LowerChar(L[m.v.p + 0]) == Empresa[0];
      LetterNotSpace(L[m.v.p], 'e');
      assert L[m.v.p..m.v.t][0] == L[m.v.p];
      StripNonBlank(L[m.v.p..m.v.t], 0);
    }
  }

  /**
   * Where the client comes from: the value of the first client label that
   * yields one, else of the first "razón social" label, else, when the text
   * mentions "empresa de", the client of the first line that splits. It is
   * empty exactly when none of these gives anything.
   */
  lemma ClientSources(text: string)
    ensures var c1 := AfterAnyLabel(text, ClientLabels, DefaultWindow);
      var c2 := AfterAnyLabel(text, CompanyLabels, DefaultWindow);
      var sp := FirstSplit(SplitLines(text));
      && Parties(text).0 == (if c1 != [] then c1 else if c2 != [] then c2
                             else if Contains(Lower(text), CompanyMark) && sp.Some? then sp.value.0 else [])
      && (Parties(text).0 == [] <==> c1 == [] && c2 == [] && (!Contains(Lower(text), CompanyMark) || sp.None?))
  {
    SplitFound(SplitLines(text));
  }

  /**
   * Where the vendor comes from: the value of the first vendor label that
   * yields one, else of the first "razón social" label, else, when the text
   * mentions "empresa de", the vendor of the first line that splits. It is
   * empty exactly when none of these gives anything.
   */
  lemma VendorSources(text: string)
    ensures var v1 := AfterAnyLabel(text, VendorLabels, DefaultWindow);
      var c2 := AfterAnyLabel(text, CompanyLabels, DefaultWindow);
      var sp := FirstSplit(SplitLines(text));
      && Parties(text).1 == (if v1 != [] then v1 else if c2 != [] then c2
                             else if Contains(Lower(text), CompanyMark) && sp.Some? then sp.value.1 else [])
      && (Parties(text).1 == [] <==> v1 == [] && c2 == [] && (!Contains(Lower(text), CompanyMark) || sp.None?))
  {
    SplitFound(SplitLines(text));
  }

  /** What the heuristic finds has a non-empty client and a non-empty vendor. */
  lemma SplitFound(lines: seq<string>)
    ensures FirstSplit(lines).Some? ==> FirstSplit(lines).value.0 != [] && FirstSplit(lines).value.1 != []
  {
    FirstSplitIsFirst(lines);
    if FirstSplit(lines).Some? {
      var n :| 0 <= n < |lines| && Mentions(lines[n]) && SplitOf(lines[n]) == FirstSplit(lines);
      SplitNonEmpty(lines[n]);
    }
  }
}
