/** Tenant identifiers and the canonical object-path codec (libs/dis-storage).

    A UUID is represented by its canonical text (section 4 of RFC 9562): 36 characters, lower-case
    hexadecimal in groups of 8-4-4-4-12. `str(uuid)` is then the identity. */
module Uuids {
  import opened Wrappers

  predicate IsLowerHex(c: char) { '0' <= c <= '9' || 'a' <= c <= 'f' }

  predicate IsUuidText(s: string) {
    && |s| == 36
    && s[8] == '-' && s[13] == '-' && s[18] == '-' && s[23] == '-'
    && forall i :: 0 <= i < 36 && i != 8 && i != 13 && i != 18 && i != 23 ==> IsLowerHex(s[i])
  }

  type Uuid = s: string | IsUuidText(s) witness "00000000-0000-0000-0000-000000000000"

  /** `s.replace(sub, "")`: every non-overlapping occurrence, left to right. */
  function Erase(s: string, sub: string): (r: string)
    requires sub != ""
    ensures |r| <= |s|
    decreases |s|
  {
    if s == "" then ""
    else if sub <= s then Erase(s[|sub|..], sub)
    else [s[0]] + Erase(s[1..], sub)
  }

  /** Nothing is erased when the first character of `sub` does not occur. */
  lemma {:induction false} EraseAbsent(s: string, sub: string)
    requires sub != "" && forall i :: 0 <= i < |s| ==> s[i] != sub[0]
    ensures Erase(s, sub) == s
    decreases |s|
  {
    if s != "" {
      EraseAbsent(s[1..], sub);
      assert s[0] != sub[0];
      assert s == [s[0]] + s[1..];
    }
  }

  predicate IsBrace(c: char) { c == '{' || c == '}' }

  /** `s.strip("{}")`. */
  function StripBraces(s: string): (r: string)
    ensures s == "" || (!IsBrace(s[0]) && !IsBrace(s[|s| - 1])) ==> r == s
    ensures |r| <= |s|
  {
    if s == "" then s
    else if IsBrace(s[0]) then StripBraces(s[1..])
    else if IsBrace(s[|s| - 1]) then StripBraces(s[..|s| - 1])
    else s
  }

  function LowerHex(c: char): (r: char)
    ensures IsLowerHex(c) ==> r == c
  {
    if 'A' <= c <= 'F' then (c as int + 32) as char else c
  }

  function LowerAll(s: string): (r: string)
    ensures |r| == |s| && forall i :: 0 <= i < |s| ==> r[i] == LowerHex(s[i])
  {
    seq(|s|, i requires 0 <= i < |s| => LowerHex(s[i]))
  }

  /** 8-4-4-4-12 grouping of 32 digits. */
  function Hyphenate(h: string): (r: string)
    requires |h| == 32
    ensures (forall i :: 0 <= i < 32 ==> IsLowerHex(h[i])) ==> IsUuidText(r)
  {
    h[..8] + "-" + h[8..12] + "-" + h[12..16] + "-" + h[16..20] + "-" + h[20..]
  }

  /** `UUID(raw)`: `None` where the constructor raises `ValueError`. */
  function UuidOf(raw: string): (r: Option<Uuid>)
    ensures r.Some? ==> IsUuidText(r.value)
  {
    var bare := Erase(StripBraces(Erase(Erase(raw, "urn:"), "uuid:")), "-");
    var hex := LowerAll(bare);
    if |hex| == 32 && forall i :: 0 <= i < 32 ==> IsLowerHex(hex[i]) then
      Some(Hyphenate(hex))
    else
      None
  }

  lemma {:induction false} EraseConcat(a: string, b: string, c: char)
    requires forall i :: 0 <= i < |a| ==> a[i] != c
    ensures Erase(a + [c] + b, [c]) == a + Erase(b, [c])
    decreases |a|
  {
    var s := a + [c] + b;
    if a == "" {
      assert s == [c] + b && s[1..] == b;
    } else {
      EraseConcat(a[1..], b, c);
      assert s[0] == a[0] != c;
      assert s[1..] == a[1..] + [c] + b;
      calc {
        Erase(s, [c]);
        [a[0]] + Erase(s[1..], [c]);
        [a[0]] + (a[1..] + Erase(b, [c]));
        a + Erase(b, [c]);
      }
    }
  }

  predicate NoHyphen(s: string) {
    forall i :: 0 <= i < |s| ==> s[i] != '-'
  }

  /** The canonical text without its four hyphens. */
  lemma EraseHyphens(a: string, b: string, c: string, d: string, e: string)
    requires NoHyphen(a) && NoHyphen(b) && NoHyphen(c) && NoHyphen(d) && NoHyphen(e)
    ensures Erase(a + ['-'] + (b + ['-'] + (c + ['-'] + (d + ['-'] + e))), "-") == a + (b + (c + (d + e)))
  {
    hide Erase;
    var s4 := d + ['-'] + e;
    var s3 := c + ['-'] + s4;
    var s2 := b + ['-'] + s3;
    EraseConcat(d, e, '-');
    EraseConcat(c, s4, '-');
    EraseConcat(b, s3, '-');
    EraseConcat(a, s2, '-');
    EraseAbsent(e, "-");
  }

  lemma HyphenateGroups(u: Uuid)
    ensures
      var h := u[..8] + (u[9..13] + (u[14..18] + (u[19..23] + u[24..])));
      && |h| == 32
      && (forall i :: 0 <= i < 32 ==> IsLowerHex(h[i]))
      && Hyphenate(h) == u
  {
    var h := u[..8] + (u[9..13] + (u[14..18] + (u[19..23] + u[24..])));
    assert h[..8] == u[..8] && h[8..12] == u[9..13] && h[12..16] == u[14..18];
    assert h[16..20] == u[19..23] && h[20..] == u[24..];
  }

  /** Reading the canonical text of a UUID gives that UUID back. */
  lemma UuidOfCanonical(u: Uuid)
    ensures UuidOf(u) == Some(u)
  {
    hide Erase, Hyphenate;
    EraseAbsent(u, "urn:");
    EraseAbsent(u, "uuid:");
    assert StripBraces(u) == u;
    var a, b, c, d, e := u[..8], u[9..13], u[14..18], u[19..23], u[24..];
    assert u == a + ['-'] + (b + ['-'] + (c + ['-'] + (d + ['-'] + e)));
    forall i | 0 <= i < |e| ensures e[i] != '-' { assert e[i] == u[24 + i] && IsLowerHex(u[24 + i]); }
    EraseHyphens(a, b, c, d, e);
    HyphenateGroups(u);
    var h := a + (b + (c + (d + e)));
    assert LowerAll(h) == h;
  }

  /** The text is the other with some of its letters a to f as capitals. */
  predicate SomeCapitals(s: string, t: string) {
    && |s| == |t|
    && forall i :: 0 <= i < |s| ==> s[i] == t[i] || ('a' <= t[i] <= 'f' && s[i] as int == t[i] as int - 32)
  }

  /** The canonical text without its hyphens. */
  function Bare(u: Uuid): string {
    u[..8] + (u[9..13] + (u[14..18] + (u[19..23] + u[24..])))
  }

  lemma BareReads(u: Uuid, h: string)
    requires SomeCapitals(h, Bare(u))
    ensures LowerAll(h) == Bare(u) && |h| == 32 && NoHyphen(h)
    ensures forall i :: 0 <= i < 32 ==> h[i] != 'u' && !IsBrace(h[i])
    ensures (forall i :: 0 <= i < 32 ==> IsLowerHex(Bare(u)[i])) && Hyphenate(Bare(u)) == u
  {
    HyphenateGroups(u);
    var b := Bare(u);
    assert forall i :: 0 <= i < 32 ==> IsLowerHex(b[i]);
  }

  /** Without hyphens, and in any letter case, a UUID still reads as its canonical text. */
  lemma UuidWithoutHyphens(u: Uuid, h: string)
    requires SomeCapitals(h, Bare(u))
    ensures UuidOf(h) == Some(u)
  {
    hide Erase, Hyphenate, SomeCapitals;
    BareReads(u, h);
    EraseAbsent(h, "urn:");
    EraseAbsent(h, "uuid:");
    EraseAbsent(h, "-");
    assert StripBraces(h) == h;
  }

  /** And with its hyphens. */
  lemma UuidInAnyCase(u: Uuid, s: string)
    requires SomeCapitals(s, u)
    ensures UuidOf(s) == Some(u)
  {
    hide Erase, Hyphenate;
    var a, b, c, d, e := s[..8], s[9..13], s[14..18], s[19..23], s[24..];
    var h := a + (b + (c + (d + e)));
    GroupsInCase(u, s);
    BareReads(u, h);
    EraseAbsent(s, "urn:");
    EraseAbsent(s, "uuid:");
    assert StripBraces(s) == s;
    assert s == a + ['-'] + (b + ['-'] + (c + ['-'] + (d + ['-'] + e)));
    EraseHyphens(a, b, c, d, e);
  }

  lemma GroupsInCase(u: Uuid, s: string)
    requires SomeCapitals(s, u)
    ensures SomeCapitals(s[..8] + (s[9..13] + (s[14..18] + (s[19..23] + s[24..]))), Bare(u))
    ensures s[8] == '-' && s[13] == '-' && s[18] == '-' && s[23] == '-'
    ensures NoHyphen(s[..8]) && NoHyphen(s[9..13]) && NoHyphen(s[14..18]) && NoHyphen(s[19..23]) && NoHyphen(s[24..])
    ensures forall i :: 0 <= i < 36 ==> s[i] != 'u' && !IsBrace(s[i])
  {
    forall i | 0 <= i < 36 && i != 8 && i != 13 && i != 18 && i != 23 ensures s[i] != '-' && s[i] != 'u' && !IsBrace(s[i]) {
      assert IsLowerHex(u[i]);
    }
  }

  /** Fewer than thirty-two characters are no UUID. */
  lemma TooShortForUuid(raw: string)
    requires |raw| < 32
    ensures UuidOf(raw) == None
  {
    hide Erase, StripBraces;
  }
}

module ObjectPath {
  import opened Wrappers
  import opened Text
  import opened Uuids

  datatype CivilDate = CivilDate(year: nat, month: nat, day: nat)

  predicate LeapYear(y: nat) { y % 4 == 0 && (y % 100 != 0 || y % 400 == 0) }

  function DaysIn(y: nat, m: nat): nat {
    if m == 2 then (if LeapYear(y) then 29 else 28)
    else if m in {4, 6, 9, 11} then 30
    else 31
  }

  /** The dates a Python `datetime` can hold. */
  predicate RealDate(d: CivilDate) {
    1 <= d.year <= 9999 && 1 <= d.month <= 12 && 1 <= d.day <= DaysIn(d.year, d.month)
  }

  type UtcDate = d: CivilDate | RealDate(d) witness CivilDate(1, 1, 1)

  /** An event timestamp: zone-less, or aware with the date it has after conversion to UTC. */
  datatype Timestamp = Naive | Aware(utc: UtcDate)

  datatype ParsedPath = ParsedPath(tenant: Uuid, source: string, date: CivilDate, trace: string, ext: string)

  datatype BuildError = EmptyField | TenantNotUuid | NaiveTimestamp
  datatype ParseError = GotUri | BadShape | BadFilename

  /** The text a set of components spells. */
  function PathText(p: ParsedPath): string {
    "tenant/" + (p.tenant + ("/source/" + (p.source + DateText(p.date, p.trace + "." + p.ext))))
  }

  function DateText(d: CivilDate, filename: string): string {
    "/yyyy=" + (Padded(d.year, 4) + ("/mm=" + (Padded(d.month, 2) + ("/dd=" + (Padded(d.day, 2) + ("/" + filename))))))
  }

  /** `build_object_path`. */
  function Build(tenant: string, source: string, trace: string, ts: Timestamp, ext: string):
    (r: Result<string, BuildError>)
  {
    var n := Normalised(source, trace, ext);
    if Strip(tenant) == "" || n.0 == "" || n.1 == "" || n.2 == "" then Err(EmptyField)
    else
      match UuidOf(Strip(tenant))
      case None => Err(TenantNotUuid)
      case Some(tid) =>
        match ts
        case Naive => Err(NaiveTimestamp)
        case Aware(utc) => Ok(PathText(ParsedPath(tid, n.0, utc, n.1, n.2)))
  }

  /** The source, trace and extension texts that `Build` writes into the path. */
  function Normalised(source: string, trace: string, ext: string): (string, string, string) {
    (Strip(source), Strip(trace), DropDots(Strip(ext)))
  }

  /** A non-empty run of non-slash characters followed by a slash (`[^/]+` before a `/`). */
  function TakeSegment(s: string): (r: Option<(string, string)>)
    ensures r.Some? ==>
              && s == r.value.0 + r.value.1
              && r.value.0 != "" && Without(r.value.0, '/')
              && r.value.1 != "" && r.value.1[0] == '/'
  {
    var k := FirstIndex(s, '/');
    if 0 < k < |s| then Some((s[..k], s[k..])) else None
  }

  lemma TakeSegmentPrefix(seg: string, rest: string)
    requires seg != "" && Without(seg, '/') && rest != "" && rest[0] == '/'
    ensures TakeSegment(seg + rest) == Some((seg, rest))
  {
    assert seg + rest == seg + ['/'] + rest[1..];
    FirstIndexUnique(seg, '/', rest[1..]);
    assert (seg + rest)[..|seg|] == seg && (seg + rest)[|seg|..] == rest;
  }

  function TakeNumber(s: string, w: nat): (r: Option<(nat, string)>)
    ensures r.Some? ==> r.value.0 < Pow10(w) && s == Padded(r.value.0, w) + r.value.1
  {
    var (digits, rest) :- TakeN(s, w);
    if AllDigits(digits) then
      NumberPadded(digits);
      Some((Number(digits), rest))
    else None
  }

  lemma TakeNumberPrefix(n: nat, w: nat, rest: string)
    requires n < Pow10(w)
    ensures TakeNumber(Padded(n, w) + rest, w) == Some((n, rest))
  {
    TakeNPrefix(Padded(n, w), rest);
    PaddedNumber(n, w);
  }

  function TakeTenant(s: string): (r: Option<(Uuid, string)>)
    ensures r.Some? ==> s == r.value.0 + r.value.1
  {
    var (text, rest) :- TakeN(s, 36);
    if IsUuidText(text) then Some((text, rest)) else None
  }

  lemma TakeTenantPrefix(u: Uuid, rest: string)
    ensures TakeTenant(u + rest) == Some((u, rest))
  {
    TakeNPrefix(u, rest);
  }

  /** `/yyyy=dddd/mm=dd/dd=dd/filename` up to the end of the text. */
  function MatchDate(s: string): (r: Option<(CivilDate, string)>)
    ensures r.Some? ==>
              && s == DateText(r.value.0, r.value.1)
              && DateFits(r.value.0)
              && r.value.1 != "" && Without(r.value.1, '/')
  {
    var s1 :- Expect(s, "/yyyy=");
    var (y, s2) :- TakeNumber(s1, 4);
    var s3 :- Expect(s2, "/mm=");
    var (m, s4) :- TakeNumber(s3, 2);
    var s5 :- Expect(s4, "/dd=");
    var (d, s6) :- TakeNumber(s5, 2);
    var filename :- Expect(s6, "/");
    if filename != "" && Without(filename, '/') then Some((CivilDate(y, m, d), filename)) else None
  }

  /** The date fields fit their fixed widths. */
  predicate DateFits(d: CivilDate) {
    d.year < Pow10(4) && d.month < Pow10(2) && d.day < Pow10(2)
  }

  lemma MatchDateText(d: CivilDate, filename: string)
    requires DateFits(d) && filename != "" && Without(filename, '/')
    ensures MatchDate(DateText(d, filename)) == Some((d, filename))
  {
    var s6 := "/" + filename;
    var s5 := Padded(d.day, 2) + s6;
    var s4 := "/dd=" + s5;
    var s3 := Padded(d.month, 2) + s4;
    var s2 := "/mm=" + s3;
    var s1 := Padded(d.year, 4) + s2;
    ExpectPrefix("/yyyy=", s1);
    TakeNumberPrefix(d.year, 4, s2);
    ExpectPrefix("/mm=", s3);
    TakeNumberPrefix(d.month, 2, s4);
    ExpectPrefix("/dd=", s5);
    TakeNumberPrefix(d.day, 2, s6);
    ExpectPrefix("/", filename);
  }

  /** The path regular expression: tenant, source, date fields and filename. */
  function MatchPath(s: string): (r: Option<(Uuid, string, CivilDate, string)>) {
    var s1 :- Expect(s, "tenant/");
    var (tenant, s2) :- TakeTenant(s1);
    var s3 :- Expect(s2, "/source/");
    var (source, s4) :- TakeSegment(s3);
    var (date, filename) :- MatchDate(s4);
    Some((tenant, source, date, filename))
  }

  /** `parse_object_path`. */
  function Parse(path: string): (r: Result<ParsedPath, ParseError>) {
    var candidate := Strip(path);
    if "gs://" <= candidate then Err(GotUri)
    else
      match MatchPath(candidate)
      case None => Err(BadShape)
      case Some((tenant, source, date, filename)) =>
        match SplitLast(filename, '.')
        case None => Err(BadFilename)
        case Some((trace, ext)) =>
          if trace == "" || ext == "" then Err(BadFilename)
          else Ok(ParsedPath(tenant, source, date, trace, ext))
  }

  /** The declarative grammar: `s` is the spelling of `p` and every component is legal. */
  predicate Spells(s: string, p: ParsedPath) {
    && s == PathText(p)
    && p.source != "" && Without(p.source, '/')
    && DateFits(p.date)
    && p.trace != "" && Without(p.trace, '/')
    && p.ext != "" && Without(p.ext, '/') && Without(p.ext, '.')
  }

  lemma MatchSpelled(p: ParsedPath, filename: string)
    requires p.source != "" && Without(p.source, '/') && DateFits(p.date)
    requires filename == p.trace + "." + p.ext && Without(filename, '/')
    ensures MatchPath(PathText(p)) == Some((p.tenant, p.source, p.date, filename))
  {
    var s4 := DateText(p.date, filename);
    var s3 := p.source + s4;
    var s2 := "/source/" + s3;
    var s1 := p.tenant + s2;
    ExpectPrefix("tenant/", s1);
    TakeTenantPrefix(p.tenant, s2);
    ExpectPrefix("/source/", s3);
    TakeSegmentPrefix(p.source, s4);
    MatchDateText(p.date, filename);
  }

  lemma MatchSound(s: string)
    requires MatchPath(s).Some?
    ensures
      var (tenant, source, date, filename) := MatchPath(s).value;
      && source != "" && Without(source, '/') && DateFits(date) && filename != "" && Without(filename, '/')
      && s == "tenant/" + (tenant + ("/source/" + (source + DateText(date, filename))))
  {
  }

  lemma SpelledParses(path: string, p: ParsedPath)
    requires Spells(Strip(path), p)
    ensures Parse(path) == Ok(p)
  {
    hide MatchPath, SplitLast, DateText;
    var filename := p.trace + ['.'] + p.ext;
    JoinWithout(p.trace, p.ext);
    MatchSpelled(p, filename);
    SplitLastUnique(p.trace, '.', p.ext);
    PathTextHead(p);
  }

  lemma PathTextHead(p: ParsedPath)
    ensures !("gs://" <= PathText(p))
  {
    assert PathText(p)[0] == 't';
  }

  lemma JoinWithout(trace: string, ext: string)
    requires Without(trace, '/') && Without(ext, '/')
    ensures Without(trace + ['.'] + ext, '/') && trace + ['.'] + ext == trace + "." + ext
  {
  }

  lemma ParsedSpells(path: string, p: ParsedPath)
    requires Parse(path) == Ok(p)
    ensures Spells(Strip(path), p)
  {
    hide MatchPath, SplitLast, DateText;
    MatchSound(Strip(path));
    var filename := MatchPath(Strip(path)).value.3;
    assert filename == p.trace + ['.'] + p.ext;
    WithoutParts(p.trace, p.ext, filename);
  }

  /** The parser accepts exactly the grammar, and returns the one reading the grammar gives. */
  lemma ParseIffSpelled(path: string, p: ParsedPath)
    ensures Parse(path) == Ok(p) <==> Spells(Strip(path), p)
  {
    hide Parse, Spells;
    if Spells(Strip(path), p) { SpelledParses(path, p); }
    if Parse(path) == Ok(p) { ParsedSpells(path, p); }
  }

  lemma WithoutParts(trace: string, ext: string, filename: string)
    requires filename == trace + ['.'] + ext && Without(filename, '/')
    ensures Without(trace, '/') && Without(ext, '/') && filename == trace + "." + ext
  {
    forall i | 0 <= i < |trace| ensures trace[i] != '/' { assert filename[i] == trace[i]; }
    forall i | 0 <= i < |ext| ensures ext[i] != '/' { assert filename[|trace| + 1 + i] == ext[i]; }
  }

  lemma DateTextEnd(d: CivilDate, filename: string)
    requires filename != ""
    ensures var t := DateText(d, filename); t != "" && t[|t| - 1] == filename[|filename| - 1]
  {
  }

  lemma PathTextTrimmed(p: ParsedPath)
    requires p.ext != "" && !IsSpace(p.ext[|p.ext| - 1])
    ensures Trimmed(PathText(p))
  {
    DateTextEnd(p.date, p.trace + "." + p.ext);
    var tail := DateText(p.date, p.trace + "." + p.ext);
    var s := "tenant/" + (p.tenant + ("/source/" + (p.source + tail)));
    assert s[0] == 't' && s[|s| - 1] == tail[|tail| - 1];
  }

  lemma DropDotsKeepsEnd(s: string)
    requires Trimmed(s) && DropDots(s) != ""
    ensures var r := DropDots(s); !IsSpace(r[|r| - 1])
  {
  }

  lemma RealDatesFit(d: CivilDate)
    requires RealDate(d)
    ensures DateFits(d)
  {
    assert Pow10(1) == 10 && Pow10(2) == 100 && Pow10(3) == 1000 && Pow10(4) == 10000;
  }

  /** Parsing a built path returns the normalised inputs and the UTC date exactly when no written
      component holds a slash and the extension holds no dot. */
  lemma ParseBuilt(tenant: string, source: string, trace: string, ts: Timestamp, ext: string)
    requires Build(tenant, source, trace, ts, ext).Ok?
    ensures
      var n := Normalised(source, trace, ext);
      var want := ParsedPath(UuidOf(Strip(tenant)).value, n.0, ts.utc, n.1, n.2);
      Parse(Build(tenant, source, trace, ts, ext).value) == Ok(want)
      <==>
      Without(n.0, '/') && Without(n.1, '/') && Without(n.2, '/') && Without(n.2, '.')
  {
    hide Parse, PathText, UuidOf, DropDots, Strip, IsSpace, Without;
    var n := Normalised(source, trace, ext);
    var want := ParsedPath(UuidOf(Strip(tenant)).value, n.0, ts.utc, n.1, n.2);
    var path := Build(tenant, source, trace, ts, ext).value;
    assert path == PathText(want);
    DropDotsKeepsEnd(Strip(ext));
    PathTextTrimmed(want);
    RealDatesFit(ts.utc);
    ParseIffSpelled(path, want);
  }

  /** The last decimal digit. */
  function Digit(n: nat): char {
    ('0' as int + n % 10) as char
  }

  lemma PaddedStep(n: nat, w: nat)
    ensures Padded(n, w + 1) == Padded(n / 10, w) + [Digit(n)]
  {
  }

  lemma TwoDigits(n: nat)
    ensures Padded(n, 2) == [Digit(n / 10), Digit(n)]
  {
    hide Padded, Digit;
    PaddedStep(n, 1);
    PaddedStep(n / 10, 0);
    assert Padded(n / 10 / 10, 0) == "";
  }

  lemma FourDigits(n: nat)
    ensures Padded(n, 4) == [Digit(n / 1000), Digit(n / 100), Digit(n / 10), Digit(n)]
  {
    hide Padded, Digit;
    PaddedStep(n, 3);
    PaddedStep(n / 10, 2);
    assert n / 10 / 10 == n / 100 && n / 100 / 10 == n / 1000;
    TwoDigits(n / 100);
  }

  /** The builder, in plain terms: a blank field, a tenant that is no UUID, or a zone-less timestamp is refused, in that
      order; anything else gives the tenant's canonical text, the stripped source and trace, the UTC date in fixed
      widths, and the extension without leading dots, in the frozen layout. */
  lemma BuildExactly(tenant: string, source: string, trace: string, ts: Timestamp, ext: string)
    ensures
      var built, tid := Build(tenant, source, trace, ts, ext), UuidOf(Strip(tenant));
      if Strip(tenant) == "" || Strip(source) == "" || Strip(trace) == "" || DropDots(Strip(ext)) == "" then built == Err(EmptyField)
      else if tid == None then built == Err(TenantNotUuid)
      else if ts == Naive then built == Err(NaiveTimestamp)
      else
        var y, m, d := ts.utc.year, ts.utc.month, ts.utc.day;
        built == Ok("tenant/" + tid.value + "/source/" + Strip(source)
          + "/yyyy=" + [Digit(y / 1000), Digit(y / 100), Digit(y / 10), Digit(y)]
          + "/mm=" + [Digit(m / 10), Digit(m)] + "/dd=" + [Digit(d / 10), Digit(d)]
          + "/" + Strip(trace) + "." + DropDots(Strip(ext)))
  {
    hide Strip, DropDots, UuidOf, Padded, PathText, Digit;
    if ts.Aware? && UuidOf(Strip(tenant)).Some? {
      LayoutIs(ParsedPath(UuidOf(Strip(tenant)).value, Strip(source), ts.utc, Strip(trace), DropDots(Strip(ext))));
    }
  }

  lemma LayoutIs(p: ParsedPath)
    ensures
      var y, m, d := p.date.year, p.date.month, p.date.day;
      PathText(p) == "tenant/" + p.tenant + "/source/" + p.source
        + "/yyyy=" + [Digit(y / 1000), Digit(y / 100), Digit(y / 10), Digit(y)]
        + "/mm=" + [Digit(m / 10), Digit(m)] + "/dd=" + [Digit(d / 10), Digit(d)]
        + "/" + p.trace + "." + p.ext
  {
    hide Padded, Digit;
    FourDigits(p.date.year);
    TwoDigits(p.date.month);
    TwoDigits(p.date.day);
  }

  /** Leap years by the Gregorian rule. */
  lemma LeapDays(y: nat)
    requires 1 <= y <= 9999
    ensures RealDate(CivilDate(y, 2, 28)) && !RealDate(CivilDate(y, 2, 30)) && !RealDate(CivilDate(y, 13, 1))
    ensures RealDate(CivilDate(y, 2, 29)) <==> (y % 4 == 0 && y % 100 != 0) || y % 400 == 0
    ensures RealDate(CivilDate(y, 4, 30)) && !RealDate(CivilDate(y, 4, 31)) && RealDate(CivilDate(y, 12, 31))
  {
  }

  lemma PathTextLength(p: ParsedPath)
    ensures |PathText(p)| == 75 + |p.source| + |p.trace| + |p.ext|
  {
  }

  /** Stripping that keeps the length keeps the text. */
  lemma StripSameLength(s: string)
    ensures |Strip(s)| == |s| ==> Strip(s) == s && Trimmed(s)
  {
  }

  lemma NormalisedSameLength(source: string, trace: string, ext: string)
    requires
      var n := Normalised(source, trace, ext);
      |n.0| + |n.1| + |n.2| == |source| + |trace| + |ext|
    ensures Trimmed(source) && Trimmed(trace) && Trimmed(ext)
  {
    StripSameLength(source);
    StripSameLength(trace);
    StripSameLength(ext);
  }

  lemma NormalisedTrimmed(source: string, trace: string, ext: string)
    requires Trimmed(source) && Trimmed(trace) && Trimmed(ext) && ext != "" && ext[0] != '.'
    ensures Normalised(source, trace, ext) == (source, trace, ext)
  {
  }

  lemma UuidTrimmed(u: Uuid)
    ensures Strip(u) == u && Trimmed(u)
  {
    hide Strip;
    assert IsLowerHex(u[0]) && IsLowerHex(u[35]);
    assert Trimmed(u);
  }

  /** What `Build` makes of components that already hold a canonical tenant. */
  lemma BuildComponents(p: ParsedPath)
    requires RealDate(p.date)
    ensures
      var n := Normalised(p.source, p.trace, p.ext);
      Build(p.tenant, p.source, p.trace, Aware(p.date), p.ext) ==
      if n.0 == "" || n.1 == "" || n.2 == "" then Err(EmptyField)
      else Ok(PathText(ParsedPath(p.tenant, n.0, p.date, n.1, n.2)))
  {
    UuidTrimmed(p.tenant);
    UuidOfCanonical(p.tenant);
  }

  /** Building from a parsed path with a real date returns the same text exactly when the three free
      components are already trimmed. */
  lemma BuildParsed(path: string)
    requires Parse(path).Ok? && RealDate(Parse(path).value.date)
    ensures
      var p := Parse(path).value;
      Build(p.tenant, p.source, p.trace, Aware(p.date), p.ext) == Ok(Strip(path))
      <==>
      Trimmed(p.source) && Trimmed(p.trace) && Trimmed(p.ext)
  {
    var p := Parse(path).value;
    ParseIffSpelled(path, p);
    BuildComponents(p);
    RebuildKeepsText(p);
  }

  lemma RebuildKeepsText(p: ParsedPath)
    requires p.source != "" && p.trace != "" && p.ext != "" && p.ext[0] != '.'
    ensures
      var n := Normalised(p.source, p.trace, p.ext);
      (n.0 != "" && n.1 != "" && n.2 != "" && PathText(ParsedPath(p.tenant, n.0, p.date, n.1, n.2)) == PathText(p))
      <==>
      Trimmed(p.source) && Trimmed(p.trace) && Trimmed(p.ext)
  {
    hide PathText, Normalised, Trimmed;
    var n := Normalised(p.source, p.trace, p.ext);
    PathTextLength(p);
    PathTextLength(ParsedPath(p.tenant, n.0, p.date, n.1, n.2));
    if Trimmed(p.source) && Trimmed(p.trace) && Trimmed(p.ext) {
      NormalisedTrimmed(p.source, p.trace, p.ext);
    } else if |n.0| + |n.1| + |n.2| == |p.source| + |p.trace| + |p.ext| {
      NormalisedSameLength(p.source, p.trace, p.ext);
    }
  }

  predicate IsBucketChar(c: char) { 'a' <= c <= 'z' || '0' <= c <= '9' || c == '-' }

  lemma SlashFirst(tail: string)
    requires tail != "" && tail[0] == '/'
    ensures tail == "/" + tail[1..]
  {
  }

  /** `split_object_uri`: `None` where it raises `StorageError`. */
  function SplitUri(uri: string): (r: Option<(string, string)>)
    ensures r.Some? ==> Strip(uri) == "gs://" + (r.value.0 + ("/" + r.value.1))
  {
    var rest :- Expect(Strip(uri), "gs://");
    var (bucket, tail) :- TakeSegment(rest);
    var key := tail[1..];
    SlashFirst(tail);
    if (forall i :: 0 <= i < |bucket| ==> IsBucketChar(bucket[i])) && key != "" && Without(key, '\n')
    then Some((bucket, key)) else None
  }

  predicate IsBucket(s: string) {
    s != "" && forall i :: 0 <= i < |s| ==> IsBucketChar(s[i])
  }

  /** A full URI splits back into its bucket and key. */
  lemma SplitUriJoined(bucket: string, key: string)
    requires IsBucket(bucket) && key != "" && Without(key, '\n') && !IsSpace(key[|key| - 1])
    ensures SplitUri("gs://" + (bucket + ("/" + key))) == Some((bucket, key))
  {
    var tail := "/" + key;
    var uri := "gs://" + (bucket + tail);
    assert uri[0] == 'g' && uri[|uri| - 1] == key[|key| - 1];
    assert Strip(uri) == uri;
    ExpectPrefix("gs://", bucket + tail);
    TakeSegmentPrefix(bucket, tail);
    assert tail[1..] == key;
  }

  /** The splitter accepts exactly the URIs `gs://bucket/key`, after stripping, with a bucket of lower-case letters,
      digits and hyphens and a one-line key, and returns those two. */
  lemma SplitUriExactly(uri: string, bucket: string, key: string)
    ensures SplitUri(uri) == Some((bucket, key)) <==>
      && Strip(uri) == "gs://" + (bucket + ("/" + key))
      && bucket != "" && (forall i :: 0 <= i < |bucket| ==> 'a' <= bucket[i] <= 'z' || '0' <= bucket[i] <= '9' || bucket[i] == '-')
      && key != "" && forall i :: 0 <= i < |key| ==> key[i] != '\n'
  {
    hide Strip, FirstIndex;
    if && Strip(uri) == "gs://" + (bucket + ("/" + key)) && bucket != "" && key != "" && Without(key, '\n')
       && (forall i :: 0 <= i < |bucket| ==> IsBucketChar(bucket[i])) {
      var tail := "/" + key;
      ExpectPrefix("gs://", bucket + tail);
      TakeSegmentPrefix(bucket, tail);
      assert tail[1..] == key;
    }
  }

  /** A full URI is not an object path, and is refused as such. */
  lemma UriIsNoPath(path: string)
    ensures Parse(path) == Err(GotUri) <==> "gs://" <= Strip(path)
  {
    hide MatchPath, Strip;
  }
}
