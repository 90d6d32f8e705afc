/** What a known_peers file means: tables of assignments, of which the last to each key counts. */
module PeerTables {
  import opened Prelude
  import opened Text
  import opened KnownPeers

  /** The key and value of an assignment line; `None` for a blank line, a comment or anything else. */
  function Assignment(line: string): Option<(string, string)> {
    var trimmed := Trim(line);
    if trimmed == "" || trimmed[0] == '#' then None
    else match IndexOf(trimmed, '=')
      case None => None
      case Some(eq) => Some((Trim(trimmed[..eq]), Bare(Trim(trimmed[eq + 1..]))))
  }

  /** Without the quotes, when the same quote stands first and last. */
  function Bare(v: string): string {
    if v == "\"" || v == "'" then ""
    else if |v| >= 2 && v[0] == v[|v| - 1] && v[0] in {'"', '\''} then v[1..|v| - 1]
    else v
  }

  predicate IsHeader(line: string) {
    Trim(line) == "[[peer]]"
  }

  /** The lines of each table; lines before the first header belong to none. */
  function Tables(table: Option<seq<string>>, lines: seq<string>): seq<seq<string>>
    decreases |lines|
  {
    if lines == [] then Closed(table)
    else if IsHeader(lines[0]) then Closed(table) + Tables(Some([]), lines[1..])
    else Tables(if table.None? then None else Some(table.value + [lines[0]]), lines[1..])
  }

  function Closed(table: Option<seq<string>>): seq<seq<string>> {
    if table.None? then [] else [table.value]
  }

  /** The value last assigned to `key`. */
  function Last(table: seq<string>, key: string): Option<string> {
    if table == [] then None
    else
      var a := Assignment(table[|table| - 1]);
      if a.Some? && a.value.0 == key then Some(a.value.1) else Last(table[..|table| - 1], key)
  }

  /** The first trust value that is none. */
  function BadTrust(table: seq<string>): Option<string> {
    if table == [] then None
    else
      var before := BadTrust(table[..|table| - 1]);
      var a := Assignment(table[|table| - 1]);
      if before.None? && a.Some? && a.value.0 == "trust" && a.value.1 !in {"verified", "tofu"} then Some(a.value.1) else before
  }

  predicate Present(v: Option<string>) {
    v.Some? && v.value != ""
  }

  /** The peer of a table: a bad trust value counts first, then the fields in this order. */
  function PeerOf(table: seq<string>, now: string): Result<KnownPeer, ParseError> {
    var alias, id, home := Last(table, "alias"), Last(table, "peer_id"), Last(table, "home_rendezvous");
    if BadTrust(table).Some? then Err(InvalidTrust(BadTrust(table).value))
    else if !Present(alias) then Err(MissingAlias)
    else if !Present(id) then Err(MissingPeerId(alias.value))
    else if !Present(home) then Err(MissingHome(alias.value))
    else
      var added := Last(table, "added_at");
      Ok(KnownPeer(alias.value, id.value, if Present(added) then added.value else now,
                   if Last(table, "trust") == Some("verified") then Verified else Tofu, home.value))
  }

  /** The peers of all tables, or the first error. */
  function PeersOf(tables: seq<seq<string>>, now: string): Result<seq<KnownPeer>, ParseError> {
    if tables == [] then Ok([])
    else match PeerOf(tables[0], now)
      case Err(e) => Err(e)
      case Ok(p) =>
        match PeersOf(tables[1..], now)
        case Err(e) => Err(e)
        case Ok(ps) => Ok([p] + ps)
  }

  function After(peers: seq<KnownPeer>, more: Result<seq<KnownPeer>, ParseError>): Result<seq<KnownPeer>, ParseError> {
    match more
    case Err(e) => Err(e)
    case Ok(ps) => Ok(peers + ps)
  }

  function TrustOf(v: Option<string>): Option<Trust> {
    if v == Some("verified") then Some(Verified) else if v == Some("tofu") then Some(Tofu) else None
  }

  /** The table under construction that the parser keeps. */
  function Partial(table: seq<string>): PartialPeer {
    PartialPeer(Last(table, "alias"), Last(table, "peer_id"), Last(table, "added_at"),
                TrustOf(Last(table, "trust")), Last(table, "home_rendezvous"))
  }

  lemma LastSnoc(table: seq<string>, line: string, key: string)
    ensures var a := Assignment(line);
      Last(table + [line], key) == if a.Some? && a.value.0 == key then Some(a.value.1) else Last(table, key)
    ensures var a := Assignment(line);
      BadTrust(table + [line])
      == if BadTrust(table).None? && a.Some? && a.value.0 == "trust" && a.value.1 !in {"verified", "tofu"} then Some(a.value.1)
         else BadTrust(table)
  {
    assert (table + [line])[..|table|] == table;
  }

  /** Without a bad value, the last trust value is a good one. */
  lemma {:induction false} GoodTrust(table: seq<string>)
    requires BadTrust(table).None?
    ensures Last(table, "trust") in {None, Some("verified"), Some("tofu")}
  {
    if table == [] {
    } else {
      GoodTrust(table[..|table| - 1]);
    }
  }

  lemma CloseIs(peers: seq<KnownPeer>, table: seq<string>, now: string)
    requires BadTrust(table).None?
    ensures Close(Parser(peers, Some(Partial(table))), now) == match PeerOf(table, now)
      case Err(e) => Err(e)
      case Ok(p) => Ok(peers + [p])
  {
    GoodTrust(table);
    // Hidden in the goal only, here and below: the steps before need the definitions.
    hide Last, BadTrust;
  }

  lemma SameQuotes()
    ensures forall v: string :: Unquoted(v) == Bare(v)
  {
  }

  lemma LineIs(peers: seq<KnownPeer>, table: seq<string>, line: string, now: string)
    requires BadTrust(table).None? && !IsHeader(line)
    ensures ParseLine(Parser(peers, Some(Partial(table))), line, now)
         == if BadTrust(table + [line]).Some? then Err(InvalidTrust(BadTrust(table + [line]).value))
            else Ok(Parser(peers, Some(Partial(table + [line]))))
  {
    LastSnoc(table, line, "alias");
    LastSnoc(table, line, "peer_id");
    LastSnoc(table, line, "added_at");
    LastSnoc(table, line, "trust");
    LastSnoc(table, line, "home_rendezvous");
    SameQuotes();
    hide Last, BadTrust, Trim, IndexOf, Unquoted, Bare;
  }

  lemma {:induction false} BadTrustStays(table: seq<string>, more: seq<string>)
    requires BadTrust(table).Some?
    ensures BadTrust(table + more) == BadTrust(table)
    decreases |more|
  {
    if more == [] {
      assert table + more == table;
    } else {
      assert (table + more)[..|table + more| - 1] == table + more[..|more| - 1];
      BadTrustStays(table, more[..|more| - 1]);
    }
  }

  /** The open table only grows until it is closed. */
  lemma {:induction false} FirstTable(table: seq<string>, lines: seq<string>)
    ensures var ts := Tables(Some(table), lines); ts != [] && table <= ts[0]
    decreases |lines|
  {
    if lines == [] || IsHeader(lines[0]) {
    } else {
      FirstTable(table + [lines[0]], lines[1..]);
    }
  }

  lemma BadTable(table: seq<string>, lines: seq<string>, now: string)
    requires BadTrust(table).Some?
    ensures PeersOf(Tables(Some(table), lines), now) == Err(InvalidTrust(BadTrust(table).value))
  {
    FirstTable(table, lines);
    var first := Tables(Some(table), lines)[0];
    BadTrustStays(table, first[|table|..]);
    assert first == table + first[|table|..];
  }

  lemma AfterAfter(peers: seq<KnownPeer>, p: KnownPeer, more: Result<seq<KnownPeer>, ParseError>)
    ensures After(peers + [p], more) == After(peers, match more case Err(e) => Err(e) case Ok(ps) => Ok([p] + ps))
  {
    if more.Ok? {
      assert peers + [p] + more.value == peers + ([p] + more.value);
    }
  }

  lemma HeaderLine(st: Parser, line: string, now: string)
    requires IsHeader(line)
    ensures ParseLine(st, line, now) == match Close(st, now)
      case Err(e) => Err(e)
      case Ok(peers) => Ok(Parser(peers, Some(EMPTY)))
  {
    hide Close;
  }

  lemma OutsideLine(peers: seq<KnownPeer>, line: string, now: string)
    requires !IsHeader(line)
    ensures ParseLine(Parser(peers, None), line, now) == Ok(Parser(peers, None))
  {
    hide Trim;
  }

  lemma ParseStep(st: Parser, lines: seq<string>, now: string)
    requires lines != []
    ensures ParseToEnd(st, lines, now) == match ParseLine(st, lines[0], now)
      case Err(e) => Err(e)
      case Ok(next) => ParseToEnd(next, lines[1..], now)
  {
    hide ParseLine;
  }

  /** The parser on the lines that follow, with a table open or none. */
  lemma {:induction false} ParserReads(peers: seq<KnownPeer>, table: Option<seq<string>>, lines: seq<string>, now: string)
    requires table.Some? ==> BadTrust(table.value).None?
    ensures ParseToEnd(Parser(peers, if table.None? then None else Some(Partial(table.value))), lines, now)
         == After(peers, PeersOf(Tables(table, lines), now))
    decreases |lines|, 1
  {
    var st := Parser(peers, if table.None? then None else Some(Partial(table.value)));
    hide PeerOf, ParseLine, Partial, BadTrust, IsHeader;
    if lines == [] {
      assert peers + [] == peers;
      if table.Some? {
        CloseIs(peers, table.value, now);
        LastTable(peers, table.value, now);
      }
    } else {
      ParseStep(st, lines, now);
      hide ParseToEnd;
      var line, rest := lines[0], lines[1..];
      if IsHeader(line) {
        HeaderReads(peers, table, line, rest, now);
      } else if table.None? {
        OutsideLine(peers, line, now);
        ParserReads(peers, None, rest, now);
      } else {
        LineIs(peers, table.value, line, now);
        if BadTrust(table.value + [line]).Some? {
          BadTable(table.value + [line], rest, now);
        } else {
          ParserReads(peers, Some(table.value + [line]), rest, now);
        }
      }
    }
  }

  lemma LastTable(peers: seq<KnownPeer>, table: seq<string>, now: string)
    ensures After(peers, PeersOf([table], now)) == match PeerOf(table, now)
      case Err(e) => Err(e)
      case Ok(p) => Ok(peers + [p])
  {
    hide PeerOf;
    PeersOfCons(table, [], now);
    assert [table] + [] == [table];
    var one := PeersOf([table], now);
    assert one.Ok? ==> one.value == [PeerOf(table, now).value] + [] == [PeerOf(table, now).value];
  }

  lemma PeersOfCons(table: seq<string>, tables: seq<seq<string>>, now: string)
    ensures PeersOf([table] + tables, now) == match PeerOf(table, now)
      case Err(e) => Err(e)
      case Ok(p) => match PeersOf(tables, now) case Err(e) => Err(e) case Ok(ps) => Ok([p] + ps)
  {
    hide PeerOf;
    assert ([table] + tables)[1..] == tables;
  }

  lemma EmptyTable()
    ensures Partial([]) == EMPTY && BadTrust([]).None?
  {
  }

  lemma HeaderReads(peers: seq<KnownPeer>, table: Option<seq<string>>, line: string, rest: seq<string>, now: string)
    requires (table.Some? ==> BadTrust(table.value).None?) && IsHeader(line)
    ensures var st := Parser(peers, if table.None? then None else Some(Partial(table.value)));
      var parsed, meant := ParseLine(st, line, now), After(peers, PeersOf(Closed(table) + Tables(Some([]), rest), now));
      if parsed.Err? then meant == Err(parsed.error) else ParseToEnd(parsed.value, rest, now) == meant
    decreases |rest| + 1, 0
  {
    var st := Parser(peers, if table.None? then None else Some(Partial(table.value)));
    HeaderLine(st, line, now);
    EmptyTable();
    var tables := Tables(Some([]), rest);
    hide PeerOf, ParseLine, Partial, BadTrust, IsHeader, ParseToEnd, Tables;
    if table.None? {
      assert [] + tables == tables;
      ParserReads(peers, Some([]), rest, now);
    } else {
      CloseIs(peers, table.value, now);
      PeersOfCons(table.value, tables, now);
      hide PeersOf;
      match PeerOf(table.value, now) {
        case Err(e) =>
        case Ok(p) =>
          ParserReads(peers + [p], Some([]), rest, now);
          AfterAfter(peers, p, PeersOf(tables, now));
      }
    }
  }

  /** The parser returns the peers of the file's tables, each with the values last assigned, or the
      first error among them; blank lines, comments, other lines and anything before the first
      header have no effect. */
  lemma ParseIsTables(content: string, now: string)
    ensures Parse(content, now) == PeersOf(Tables(None, Lines(content)), now)
  {
    ParserReads([], None, Lines(content), now);
    hide PeersOf, Tables, ParseToEnd;
    var peers := PeersOf(Tables(None, Lines(content)), now);
    assert peers.Ok? ==> [] + peers.value == peers.value;
  }
}
