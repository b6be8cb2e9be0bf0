/** The allowed-clients file of src/wigo/authority.go: one "uuid hostname" line per client, printed in
    whatever order the map is walked, read back line by line through an unanchored pattern. The text form
    of a uuid is that of section 3 of RFC 4122. Strings are sequences of bytes. */
module AllowedList {
  import opened Basics

  // ------------------------------------------------------------ uuid text form

  predicate Upper(c: char) {
    'A' <= c <= 'F'
  }

  predicate HexDigit(c: char) {
    '0' <= c <= '9' || 'a' <= c <= 'f' || Upper(c)
  }

  predicate UuidShape(s: string) {
    && |s| == 36
    && forall i :: 0 <= i < 36 ==> if i in {8, 13, 18, 23} then s[i] == '-' else HexDigit(s[i])
  }

  /** The output form: lower-case digits only. */
  predicate Canonical(s: string) {
    UuidShape(s) && forall i :: 0 <= i < |s| ==> !Upper(s[i])
  }

  function LowerChar(c: char): char {
    if Upper(c) then c - 'A' + 'a' else c
  }

  /** Parsing a uuid and printing it again: input is case-insensitive, output is lower case. */
  function Normalised(s: string): string {
    seq(|s|, i requires 0 <= i < |s| => LowerChar(s[i]))
  }

  lemma NormalisedIsCanonical(s: string)
    requires UuidShape(s)
    ensures Canonical(Normalised(s))
    ensures Canonical(s) ==> Normalised(s) == s
  {
  }

  // --------------------------------------------------------------------- lines

  function LineEnd(file: string): (n: nat)
    ensures n <= |file| && '\n' !in file[..n]
    ensures n < |file| ==> file[n] == '\n'
  {
    if file == "" || file[0] == '\n' then 0
    else
      var n := LineEnd(file[1..]);
      assert file[..n + 1] == [file[0]] + file[1..][..n];
      n + 1
  }

  /** A line that does not fit the scanner's buffer of 65536 bytes with its newline stops the program. */
  const MAX_LINE := 65535

  /** The scanner drops one carriage return before the end of a line. */
  function DropCR(line: string): string {
    if line != "" && line[|line| - 1] == '\r' then line[..|line| - 1] else line
  }

  /** The lines as they stand in the file, without their newlines. */
  function Lines(file: string): seq<string>
    decreases |file|
  {
    if file == "" then []
    else
      var n := LineEnd(file);
      [file[..n]] + if n < |file| then Lines(file[n + 1..]) else []
  }

  lemma {:induction false} LinesHoldNoNewline(file: string)
    ensures forall l :: l in Lines(file) ==> '\n' !in l
    decreases |file|
  {
    if file != "" {
      var n := LineEnd(file);
      if n < |file| {
        LinesHoldNoNewline(file[n + 1..]);
      }
    }
  }

  lemma {:induction false} LineEndOf(line: string, rest: string)
    requires '\n' !in line
    ensures LineEnd(line + "\n" + rest) == |line|
  {
    if line != "" {
      assert (line + "\n" + rest)[1..] == line[1..] + "\n" + rest;
      assert line[0] in line;
      LineEndOf(line[1..], rest);
    }
  }

  lemma LinesOfLine(line: string, rest: string)
    requires '\n' !in line
    ensures Lines(line + "\n" + rest) == [line] + Lines(rest)
  {
    LineEndOf(line, rest);
    var file := line + "\n" + rest;
    assert file[..|line|] == line && file[|line| + 1..] == rest;
  }

  // ------------------------------------------------------------------- reading

  datatype Loaded = Loaded(allowed: map<string, string>) | Fatal

  predicate MatchAt(line: string, p: nat) {
    p + 38 <= |line| && UuidShape(line[p..p + 36]) && line[p + 36] == ' '
  }

  /** The leftmost match of the pattern at or after `p`: the uuid text and everything after the blank. */
  function FindEntry(line: string, p: nat): (r: Option<(string, string)>)
    ensures r.Some? ==> UuidShape(r.value.0) && r.value.1 != "" && exists q :: 37 <= q <= |line| && r.value.1 == line[q..]
    decreases |line| - p
  {
    if |line| < p + 38 then None
    else if MatchAt(line, p) then Some((line[p..p + 36], line[p + 37..]))
    else FindEntry(line, p + 1)
  }

  /** The entry read is the one at the first place of the line that holds a uuid text, a blank and something more. */
  lemma {:induction false} FindsLeftmost(line: string, p: nat) returns (q: nat)
    requires FindEntry(line, p).Some?
    ensures p <= q && MatchAt(line, q) && FindEntry(line, p).value == (line[q..q + 36], line[q + 37..])
    ensures forall o :: p <= o < q ==> !MatchAt(line, o)
    decreases |line| - p
  {
    q := p;
    if !MatchAt(line, p) {
      q := FindsLeftmost(line, p + 1);
    }
  }

  /** A line without such a place is passed over. */
  lemma {:induction false} FindsNothing(line: string, p: nat)
    requires FindEntry(line, p).None?
    ensures forall q :: p <= q ==> !MatchAt(line, q)
    decreases |line| - p
  {
    if |line| >= p + 38 {
      FindsNothing(line, p + 1);
    }
  }

  /** `accepts` is the uuid library's verdict on a text of the right shape; a refusal is fatal, and so is a line
      that is too long. */
  function LoadLines(accepts: string -> bool, allowed: map<string, string>, lines: seq<string>): Loaded
    decreases |lines|
  {
    if lines == [] then Loaded(allowed)
    else if |lines[0]| > MAX_LINE then Fatal
    else
      match FindEntry(DropCR(lines[0]), 0)
      case None => LoadLines(accepts, allowed, lines[1..])
      case Some((uuid, hostname)) =>
        if accepts(uuid) then LoadLines(accepts, allowed[Normalised(uuid) := hostname], lines[1..]) else Fatal
  }

  function Load(accepts: string -> bool, file: Option<string>): Loaded {
    match file
    case None => Loaded(map[])
    case Some(text) => LoadLines(accepts, map[], Lines(text))
  }

  // ------------------------------------------------------------------ printing

  function Line(uuid: string, hostname: string): string {
    uuid + " " + hostname
  }

  function Print(allowed: map<string, string>, order: seq<string>): string
    requires forall u :: u in order ==> u in allowed
  {
    if order == [] then "" else Line(order[0], allowed[order[0]]) + "\n" + Print(allowed, order[1..])
  }

  ghost predicate IsOrder(order: seq<string>, keys: set<string>) {
    NoDuplicates(order) && forall u :: u in order <==> u in keys
  }

  // ---------------------------------------------------------------- round trip

  predicate GoodHostname(hostname: string) {
    0 < |hostname| <= MAX_LINE - 37 && '\n' !in hostname && hostname[|hostname| - 1] != '\r'
  }

  predicate GoodClient(accepts: string -> bool, uuid: string, hostname: string) {
    Canonical(uuid) && accepts(uuid) && GoodHostname(hostname)
  }

  ghost predicate GoodClients(accepts: string -> bool, allowed: map<string, string>) {
    forall u :: u in allowed ==> GoodClient(accepts, u, allowed[u])
  }

  /** What any loaded map looks like. */
  ghost predicate Readable(allowed: map<string, string>) {
    forall u :: u in allowed ==> Canonical(u) && allowed[u] != "" && '\n' !in allowed[u]
  }

  lemma {:induction false} LoadedIsReadable(accepts: string -> bool, allowed: map<string, string>, lines: seq<string>)
    requires Readable(allowed) && forall l :: l in lines ==> '\n' !in l
    requires LoadLines(accepts, allowed, lines).Loaded?
    ensures Readable(LoadLines(accepts, allowed, lines).allowed)
    decreases |lines|
  {
    if lines != [] {
      assert lines[0] in lines;
      var entry := FindEntry(DropCR(lines[0]), 0);
      if entry.Some? {
        NormalisedIsCanonical(entry.value.0);
        LoadedIsReadable(accepts, allowed[Normalised(entry.value.0) := entry.value.1], lines[1..]);
      } else {
        LoadedIsReadable(accepts, allowed, lines[1..]);
      }
    }
  }

  lemma CanonicalHoldsNoNewline(uuid: string)
    requires Canonical(uuid)
    ensures '\n' !in uuid
  {
  }

  /** A printed line reads back as the uuid and the hostname without a trailing carriage return. */
  lemma EntryOfLine(uuid: string, hostname: string)
    requires Canonical(uuid) && hostname != ""
    ensures DropCR(Line(uuid, hostname)) == Line(uuid, DropCR(hostname))
    ensures FindEntry(Line(uuid, DropCR(hostname)), 0) ==
            if DropCR(hostname) == "" then None else Some((uuid, DropCR(hostname)))
  {
    var host := DropCR(hostname);
    var line := Line(uuid, host);
    assert DropCR(Line(uuid, hostname)) == line;
    assert line[..36] == uuid && line[0..36] == uuid && line[36] == ' ' && line[37..] == host;
  }

  /** The printed line of a client fits the scanner's buffer. */
  predicate Fits(u: string, allowed: map<string, string>)
    requires u in allowed
  {
    |Line(u, allowed[u])| <= MAX_LINE
  }

  /** What reading one printed line does before the lines after it. */
  lemma LoadOneLine(accepts: string -> bool, base: map<string, string>, uuid: string, hostname: string, lines: seq<string>)
    requires Canonical(uuid) && hostname != ""
    ensures LoadLines(accepts, base, [Line(uuid, hostname)] + lines) ==
            if |Line(uuid, hostname)| > MAX_LINE then Fatal
            else if DropCR(hostname) == "" then LoadLines(accepts, base, lines)
            else if accepts(uuid) then LoadLines(accepts, base[uuid := DropCR(hostname)], lines) else Fatal
  {
    EntryOfLine(uuid, hostname);
    NormalisedIsCanonical(uuid);
    assert ([Line(uuid, hostname)] + lines)[1..] == lines;
  }

  /** Reading the printed lines of `order` on top of `base`: what becomes of each uuid. */
  lemma {:induction false} LoadPrinted(accepts: string -> bool, allowed: map<string, string>, order: seq<string>,
                                       base: map<string, string>, u: string)
    requires Readable(allowed) && NoDuplicates(order) && forall v :: v in order ==> v in allowed
    ensures var r := LoadLines(accepts, base, Lines(Print(allowed, order)));
            r.Loaded? ==>
              && (u in order ==> Fits(u, allowed))
              && if u in order && DropCR(allowed[u]) != "" then accepts(u) && u in r.allowed && r.allowed[u] == DropCR(allowed[u])
              else (u in r.allowed <==> u in base) && (u in base ==> r.allowed[u] == base[u])
    ensures (forall v :: v in order ==> accepts(v) && Fits(v, allowed)) ==>
              LoadLines(accepts, base, Lines(Print(allowed, order))).Loaded?
  {
    if order != [] {
      var v, rest := order[0], order[1..];
      var host := allowed[v];
      CanonicalHoldsNoNewline(v);
      LinesOfLine(Line(v, host), Print(allowed, rest));
      LoadOneLine(accepts, base, v, host, Lines(Print(allowed, rest)));
      var base' := if DropCR(host) == "" then base else base[v := DropCR(host)];
      LoadPrinted(accepts, allowed, rest, base', u);
      assert v !in rest;
    }
  }

  /** Loading what was saved gives back exactly the allowed map, for every order of printing, exactly when
      every client has a canonical uuid the library accepts and a non-empty hostname of at most 65498 bytes with
      no newline and no trailing carriage return. */
  lemma LoadSavedIff(accepts: string -> bool, allowed: map<string, string>, order: seq<string>)
    requires IsOrder(order, allowed.Keys)
    ensures Load(accepts, Some(Print(allowed, order))) == Loaded(allowed) <==> GoodClients(accepts, allowed)
  {
    var text := Print(allowed, order);
    var r := Load(accepts, Some(text));
    if r == Loaded(allowed) {
      LinesHoldNoNewline(text);
      LoadedIsReadable(accepts, map[], Lines(text));
      forall u | u in allowed
        ensures GoodClient(accepts, u, allowed[u])
      {
        LoadPrinted(accepts, allowed, order, map[], u);
      }
    }
    if GoodClients(accepts, allowed) {
      forall u
        ensures r.Loaded? && (u in r.allowed <==> u in allowed) && (u in allowed ==> r.allowed[u] == allowed[u])
      {
        LoadPrinted(accepts, allowed, order, map[], u);
      }
    }
  }
}
