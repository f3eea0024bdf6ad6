/** The two-level syntax of SENSITIVE_DATA_PATHS: a comma-separated list
    (config.splitList) of dot-separated paths with quoted parts
    (internal.splitPath), and the printer that inverts it. */
module PathSyntax {
  import opened Text

  type Path = seq<string>

  // ----- splitPath -----

  /** What splitPath still produces for the unread text `s`, with `buf` the part
      read so far and `quoted` telling whether a quote is open. */
  function Scan(s: string, buf: string, quoted: bool): Path {
    if s == "" then (if buf != "" then [buf] else [])
    else if s[0] == '\'' then Scan(s[1..], buf, !quoted)
    else if s[0] == '.' && !quoted then [buf] + Scan(s[1..], "", false)
    else Scan(s[1..], buf + [s[0]], quoted)
  }

  method SplitPath(path: string) returns (parts: Path)
    ensures parts == Scan(path, "", false)
    ensures forall p | p in parts :: '\'' !in p
  {
    parts := [];
    var buf := "";
    var inQuotes := false;
    for i := 0 to |path|
      invariant parts + Scan(path[i..], buf, inQuotes) == Scan(path, "", false)
      invariant '\'' !in buf && forall p | p in parts :: '\'' !in p
    {
      var c := path[i];
      assert path[i..][1..] == path[i + 1..];
      match c
      case '\'' => inQuotes := !inQuotes;
      case '.' =>
        if !inQuotes {
          parts := parts + [buf];
          buf := "";
        } else {
          buf := buf + [c];
        }
      case _ => buf := buf + [c];
    }
    if |buf| > 0 {
      parts := parts + [buf];
    }
  }

  // ----- what a path text means -----

  /** The text without its quotes. */
  function WithoutQuotes(s: string): string {
    if s == "" then "" else if s[0] == '\'' then WithoutQuotes(s[1..]) else [s[0]] + WithoutQuotes(s[1..])
  }

  /** An odd number of quotes precedes what follows `s`. */
  predicate LeavesOpen(s: string) {
    s != "" && (if s[0] == '\'' then !LeavesOpen(s[1..]) else LeavesOpen(s[1..]))
  }

  /** A dot outside quotes. */
  predicate Separates(s: string, i: nat)
    requires i < |s|
  {
    s[i] == '.' && !LeavesOpen(s[..i])
  }

  /** As `Separates`, with a quote open before `s` or not. */
  predicate SeparatesIn(s: string, i: nat, quoted: bool)
    requires i < |s|
  {
    s[i] == '.' && LeavesOpen(s[..i]) == quoted
  }

  lemma SeparatesNext(s: string, i: nat, quoted: bool)
    requires 0 < i < |s|
    ensures SeparatesIn(s, i, quoted) == SeparatesIn(s[1..], i - 1, if s[0] == '\'' then !quoted else quoted)
  {
    assert s[..i][1..] == s[1..][..i - 1];
  }

  lemma {:induction false} ScanToSeparator(s: string, i: nat, buf: string, quoted: bool)
    requires i < |s| && SeparatesIn(s, i, quoted) && forall j | 0 <= j < i :: !SeparatesIn(s, j, quoted)
    ensures Scan(s, buf, quoted) == [buf + WithoutQuotes(s[..i])] + Scan(s[i + 1..], "", false)
    decreases i
  {
    if i == 0 {
      assert s[..0] == "" && buf + "" == buf;
    } else {
      assert !SeparatesIn(s, 0, quoted) && s[..0] == "";
      var q := if s[0] == '\'' then !quoted else quoted;
      SeparatesNext(s, i, quoted);
      forall j | 0 <= j < i - 1 ensures !SeparatesIn(s[1..], j, q) {
        SeparatesNext(s, j + 1, quoted);
      }
      ScanToSeparator(s[1..], i - 1, if s[0] == '\'' then buf else buf + [s[0]], q);
      assert s[..i][1..] == s[1..][..i - 1] && s[1..][i..] == s[i + 1..];
      assert buf + ([s[0]] + WithoutQuotes(s[..i][1..])) == buf + [s[0]] + WithoutQuotes(s[..i][1..]);
    }
  }

  lemma {:induction false} ScanToEnd(s: string, buf: string, quoted: bool)
    requires forall j | 0 <= j < |s| :: !SeparatesIn(s, j, quoted)
    ensures var part := buf + WithoutQuotes(s); Scan(s, buf, quoted) == if part == "" then [] else [part]
    decreases |s|
  {
    if s != "" {
      assert !SeparatesIn(s, 0, quoted) && s[..0] == "";
      var q := if s[0] == '\'' then !quoted else quoted;
      forall j | 0 <= j < |s| - 1 ensures !SeparatesIn(s[1..], j, q) {
        SeparatesNext(s, j + 1, quoted);
      }
      ScanToEnd(s[1..], if s[0] == '\'' then buf else buf + [s[0]], q);
      assert buf + ([s[0]] + WithoutQuotes(s[1..])) == buf + [s[0]] + WithoutQuotes(s[1..]);
    } else {
      assert buf + "" == buf;
    }
  }

  /** What splitting gives, for every text: up to the first dot outside quotes one part,
      without its quotes, then the parts of what follows that dot. */
  lemma SplitsAtSeparator(s: string, i: nat)
    requires i < |s| && Separates(s, i) && forall j | 0 <= j < i :: !Separates(s, j)
    ensures Scan(s, "", false) == [WithoutQuotes(s[..i])] + Scan(s[i + 1..], "", false)
  {
    forall j | 0 <= j <= i ensures SeparatesIn(s, j, false) == Separates(s, j) {
    }
    ScanToSeparator(s, i, "", false);
    assert "" + WithoutQuotes(s[..i]) == WithoutQuotes(s[..i]);
  }

  /** Without such a dot the whole is one part, if anything of it is left. */
  lemma SplitsNowhere(s: string)
    requires forall j | 0 <= j < |s| :: !Separates(s, j)
    ensures Scan(s, "", false) == if WithoutQuotes(s) == "" then [] else [WithoutQuotes(s)]
  {
    forall j | 0 <= j < |s| ensures !SeparatesIn(s, j, false) {
      assert !Separates(s, j);
    }
    ScanToEnd(s, "", false);
    assert "" + WithoutQuotes(s) == WithoutQuotes(s);
  }

  lemma OnePartMore(part: string, rest: Path, text: string)
    requires (text == Join(rest, '.') || text == Join(rest, '.') + ".") && (rest == [] ==> text == "")
    ensures var joined, all := Join([part] + rest, '.'), part + ("." + text); all == joined || all == joined + "."
  {
    if rest != [] {
      assert ([part] + rest)[1..] == rest;
      assert part + ("." + Join(rest, '.')) == part + "." + Join(rest, '.');
      assert part + ("." + (Join(rest, '.') + ".")) == part + "." + Join(rest, '.') + ".";
    }
  }

  lemma {:induction false} PartsJoinUp(s: string, buf: string, quoted: bool)
    ensures var parts, text := Scan(s, buf, quoted), buf + WithoutQuotes(s);
            && (text == Join(parts, '.') || text == Join(parts, '.') + ".")
            && (parts == [] ==> text == "")
  {
    if s == "" {
      assert buf + "" == buf;
    } else if s[0] == '\'' {
      PartsJoinUp(s[1..], buf, !quoted);
    } else if s[0] == '.' && !quoted {
      PartsJoinUp(s[1..], "", false);
      assert "" + WithoutQuotes(s[1..]) == WithoutQuotes(s[1..]);
      OnePartMore(buf, Scan(s[1..], "", false), WithoutQuotes(s[1..]));
    } else {
      PartsJoinUp(s[1..], buf + [s[0]], quoted);
      assert buf + ([s[0]] + WithoutQuotes(s[1..])) == buf + [s[0]] + WithoutQuotes(s[1..]);
    }
  }

  /** Nothing of a text is lost but its quotes and one trailing dot. */
  lemma NothingIsDropped(s: string)
    ensures var joined := Join(Scan(s, "", false), '.'); WithoutQuotes(s) == joined || WithoutQuotes(s) == joined + "."
  {
    PartsJoinUp(s, "", false);
    assert "" + WithoutQuotes(s) == WithoutQuotes(s);
  }

  // ----- splitList -----

  /** The trimmed, non-empty items, in order. */
  function Kept(items: seq<string>): seq<string> {
    if items == [] then []
    else
      var item := TrimSpace(items[0]);
      (if item != "" then [item] else []) + Kept(items[1..])
  }

  lemma {:induction false} KeptAppend(items: seq<string>, more: seq<string>)
    ensures Kept(items + more) == Kept(items) + Kept(more)
  {
    if items == [] {
      assert items + more == more;
    } else {
      assert (items + more)[1..] == items[1..] + more;
      KeptAppend(items[1..], more);
    }
  }

  method SplitList(value: string) returns (out: seq<string>)
    ensures out == Kept(Split(value, ','))
    ensures forall item | item in out :: item != ""
  {
    out := [];
    var items := Split(value, ',');
    for i := 0 to |items|
      invariant out == Kept(items[..i])
      invariant forall item | item in out :: item != ""
    {
      KeptAppend(items[..i], [items[i]]);
      assert items[..i + 1] == items[..i] + [items[i]];
      var item := TrimSpace(items[i]);
      if item != "" {
        out := out + [item];
      }
    }
    assert items[..|items|] == items;
  }

  // ----- the printer -----

  function Quoted(part: string): string {
    "'" + part + "'"
  }

  /** Every part quoted, joined with dots. */
  function PrintPath(p: Path): string {
    if p == [] then "" else if |p| == 1 then Quoted(p[0]) else Quoted(p[0]) + "." + PrintPath(p[1..])
  }

  /** Every part quoted and followed by a dot. */
  function PrintTerminated(p: Path): string {
    if p == [] then "" else Quoted(p[0]) + "." + PrintTerminated(p[1..])
  }

  function PrintPaths(ps: seq<Path>): seq<string> {
    seq(|ps|, i requires 0 <= i < |ps| => PrintPath(ps[i]))
  }

  /** A path the printer can express: not empty, no quote or comma in a part,
      and a last part that is not empty. */
  predicate Printable(p: Path) {
    && |p| >= 1
    && p[|p| - 1] != ""
    && forall part | part in p :: '\'' !in part && ',' !in part
  }

  /** What reading a configured list gives: the list split, then every item. */
  function ReadPaths(value: string): seq<Path> {
    var items := Kept(Split(value, ','));
    seq(|items|, i requires 0 <= i < |items| => Scan(items[i], "", false))
  }

  // ----- round trips -----

  lemma {:induction false} ScanPlain(part: string, rest: string, buf: string)
    requires '\'' !in part
    ensures Scan(part + ("'" + rest), buf, true) == Scan(rest, buf + part, false)
  {
    var s := part + ("'" + rest);
    if part == "" {
      assert s[1..] == rest && buf + part == buf;
    } else {
      assert s[1..] == part[1..] + ("'" + rest);
      ScanPlain(part[1..], rest, buf + [part[0]]);
      assert buf + [part[0]] + part[1..] == buf + part;
    }
  }

  lemma ScanQuoted(part: string, rest: string)
    requires '\'' !in part
    ensures Scan(Quoted(part) + rest, "", false) == Scan(rest, part, false)
  {
    var s := Quoted(part) + rest;
    assert s[0] == '\'' && s[1..] == part + ("'" + rest);
    ScanPlain(part, rest, "");
    assert "" + part == part;
  }

  lemma ScanQuotedDot(part: string, rest: string)
    requires '\'' !in part
    ensures Scan(Quoted(part) + "." + rest, "", false) == [part] + Scan(rest, "", false)
  {
    assert Quoted(part) + "." + rest == Quoted(part) + ("." + rest);
    ScanQuoted(part, "." + rest);
    assert ("." + rest)[1..] == rest;
  }

  lemma {:induction false} PathRoundTrip(p: Path)
    requires |p| >= 1 && p[|p| - 1] != ""
    requires forall part | part in p :: '\'' !in part
    ensures Scan(PrintPath(p), "", false) == p
  {
    if |p| == 1 {
      assert PrintPath(p) == Quoted(p[0]) + "";
      ScanQuoted(p[0], "");
    } else {
      PathRoundTrip(p[1..]);
      ScanQuotedDot(p[0], PrintPath(p[1..]));
    }
  }

  // ----- a printer that quotes some parts only -----

  function PrintPart(part: string, quoted: bool): string {
    if quoted then Quoted(part) else part
  }

  /** The parts joined with dots, those quoted for which `quoted` says so. */
  function PrintMixed(p: Path, quoted: seq<bool>): string
    requires |quoted| == |p|
  {
    if p == [] then ""
    else if |p| == 1 then PrintPart(p[0], quoted[0])
    else PrintPart(p[0], quoted[0]) + "." + PrintMixed(p[1..], quoted[1..])
  }

  /** A part with a dot is quoted, no part has a quote, and the last one is not empty. */
  predicate Legible(p: Path, quoted: seq<bool>) {
    && |quoted| == |p| >= 1 && p[|p| - 1] != ""
    && forall i | 0 <= i < |p| :: '\'' !in p[i] && (!quoted[i] ==> '.' !in p[i])
  }

  lemma {:induction false} ScanBare(part: string, rest: string, buf: string)
    requires '\'' !in part && '.' !in part
    ensures Scan(part + rest, buf, false) == Scan(rest, buf + part, false)
  {
    if part == "" {
      assert part + rest == rest && buf + part == buf;
    } else {
      assert (part + rest)[1..] == part[1..] + rest;
      ScanBare(part[1..], rest, buf + [part[0]]);
      assert buf + [part[0]] + part[1..] == buf + part;
    }
  }

  lemma ScanPart(part: string, quoted: bool, rest: string)
    requires '\'' !in part && (!quoted ==> '.' !in part)
    ensures Scan(PrintPart(part, quoted) + rest, "", false) == Scan(rest, part, false)
  {
    if quoted {
      ScanQuoted(part, rest);
    } else {
      ScanBare(part, rest, "");
      assert "" + part == part;
    }
  }

  /** What it prints is split into the same path. */
  lemma {:induction false} MixedRoundTrip(p: Path, quoted: seq<bool>)
    requires Legible(p, quoted)
    ensures Scan(PrintMixed(p, quoted), "", false) == p
  {
    if |p| == 1 {
      ScanPart(p[0], quoted[0], "");
      assert PrintPart(p[0], quoted[0]) + "" == PrintPart(p[0], quoted[0]);
    } else {
      var rest := PrintMixed(p[1..], quoted[1..]);
      forall i | 0 <= i < |p[1..]| ensures '\'' !in p[1..][i] && (!quoted[1..][i] ==> '.' !in p[1..][i]) {
        assert p[1..][i] == p[i + 1] && quoted[1..][i] == quoted[i + 1];
      }
      MixedRoundTrip(p[1..], quoted[1..]);
      assert PrintPart(p[0], quoted[0]) + "." + rest == PrintPart(p[0], quoted[0]) + ("." + rest);
      ScanPart(p[0], quoted[0], "." + rest);
      assert ("." + rest)[1..] == rest;
    }
  }

  /** One item of a configured list: a printed path with blanks around it. */
  datatype Item = Item(path: Path, quoted: seq<bool>, left: string, right: string) {
    predicate Ok() {
      && Legible(path, quoted)
      && (forall c | c in left || c in right :: IsBlank(c))
      && var s := PrintMixed(path, quoted); s != "" && IsGraphic(s[0]) && IsGraphic(s[|s| - 1]) && ',' !in s
    }
    function Text(): string {
      left + (if |quoted| == |path| then PrintMixed(path, quoted) else "") + right
    }
  }

  lemma {:induction false} KeptTrimmed(items: seq<string>, trimmed: seq<string>)
    requires |items| == |trimmed| && forall i | 0 <= i < |items| :: TrimSpace(items[i]) == trimmed[i] != ""
    ensures Kept(items) == trimmed
  {
    if items != [] {
      forall i | 0 <= i < |items[1..]| ensures TrimSpace(items[1..][i]) == trimmed[1..][i] != "" {
        assert items[1..][i] == items[i + 1];
      }
      KeptTrimmed(items[1..], trimmed[1..]);
      assert trimmed == [trimmed[0]] + trimmed[1..];
    }
  }

  lemma ItemReads(item: Item)
    requires item.Ok()
    ensures ',' !in item.Text() && TrimSpace(item.Text()) == PrintMixed(item.path, item.quoted) != ""
    ensures Scan(PrintMixed(item.path, item.quoted), "", false) == item.path
  {
    TrimDropsBlanks(item.left, PrintMixed(item.path, item.quoted), item.right);
    MixedRoundTrip(item.path, item.quoted);
    assert !IsBlank(',');
  }

  function Texts(items: seq<Item>): seq<string> {
    seq(|items|, i requires 0 <= i < |items| => items[i].Text())
  }

  /** A list as it is written, with blanks around commas and quotes where they are
      needed or wanted, is read as the paths it names. */
  lemma WrittenListIsRead(items: seq<Item>)
    requires forall i | 0 <= i < |items| :: items[i].Ok()
    ensures ReadPaths(Join(Texts(items), ',')) == seq(|items|, i requires 0 <= i < |items| => items[i].path)
  {
    var texts := Texts(items);
    var printed := seq(|items|, i requires 0 <= i < |items| => PrintMixed(items[i].path, items[i].quoted));
    forall i | 0 <= i < |items|
      ensures ',' !in texts[i] && TrimSpace(texts[i]) == printed[i] != "" && Scan(printed[i], "", false) == items[i].path
    {
      ItemReads(items[i]);
    }
    if items != [] {
      SplitJoin(texts, ',');
      KeptTrimmed(texts, printed);
    }
  }

  lemma {:induction false} PrintedClean(p: Path)
    requires Printable(p)
    ensures ',' !in PrintPath(p)
    ensures |PrintPath(p)| >= 2 && PrintPath(p)[0] == '\'' && PrintPath(p)[|PrintPath(p)| - 1] == '\''
  {
    if |p| > 1 {
      PrintedClean(p[1..]);
    }
  }

  lemma {:induction false} KeptAll(items: seq<string>)
    requires forall s | s in items :: |s| >= 1 && !IsSpace(s[0]) && !IsSpace(s[|s| - 1])
    ensures Kept(items) == items
  {
    if items != [] {
      KeptAll(items[1..]);
      assert items == [items[0]] + items[1..];
    }
  }

  /** Printing a list of paths and reading it back gives the list. */
  lemma ListRoundTrip(ps: seq<Path>)
    requires forall p | p in ps :: Printable(p)
    ensures ReadPaths(Join(PrintPaths(ps), ',')) == ps
  {
    var printed := PrintPaths(ps);
    forall i | 0 <= i < |ps|
      ensures ',' !in printed[i] && Scan(printed[i], "", false) == ps[i]
      ensures |printed[i]| >= 1 && !IsSpace(printed[i][0]) && !IsSpace(printed[i][|printed[i]| - 1])
    {
      assert ps[i] in ps;
      PrintedClean(ps[i]);
      PathRoundTrip(ps[i]);
    }
    if ps != [] {
      SplitJoin(printed, ',');
      KeptAll(printed);
    }
  }

  lemma {:induction false} TerminatedRoundTrip(p: Path)
    requires forall part | part in p :: '\'' !in part
    ensures Scan(PrintTerminated(p), "", false) == p
  {
    if p != [] {
      TerminatedRoundTrip(p[1..]);
      ScanQuotedDot(p[0], PrintTerminated(p[1..]));
    }
  }

  lemma {:induction false} PartsUnquoted(s: string, buf: string, quoted: bool)
    requires '\'' !in buf
    ensures forall part | part in Scan(s, buf, quoted) :: '\'' !in part
  {
    if s == "" {
    } else if s[0] == '\'' {
      PartsUnquoted(s[1..], buf, !quoted);
    } else if s[0] == '.' && !quoted {
      PartsUnquoted(s[1..], "", false);
    } else {
      PartsUnquoted(s[1..], buf + [s[0]], quoted);
    }
  }

  /** For every string: splitting, printing dot-terminated and splitting again
      gives the same parts. */
  lemma ScanStable(s: string)
    ensures Scan(PrintTerminated(Scan(s, "", false)), "", false) == Scan(s, "", false)
  {
    PartsUnquoted(s, "", false);
    TerminatedRoundTrip(Scan(s, "", false));
  }

  // ----- paths as they are mostly written -----

  /** No part quoted. */
  function Bare(p: Path): seq<bool> {
    seq(|p|, _ => false)
  }

  lemma {:induction false} BareJoins(p: Path)
    ensures PrintMixed(p, Bare(p)) == Join(p, '.')
  {
    if |p| > 1 {
      assert Bare(p)[1..] == Bare(p[1..]);
      BareJoins(p[1..]);
    }
  }

  /** Names joined with dots are read as these names, as long as they hold neither dots nor
      quotes. */
  lemma PlainPathIsRead(p: Path)
    requires p != [] && p[|p| - 1] != "" && forall i | 0 <= i < |p| :: '\'' !in p[i] && '.' !in p[i]
    ensures Scan(Join(p, '.'), "", false) == p
  {
    BareJoins(p);
    MixedRoundTrip(p, Bare(p));
  }
}
