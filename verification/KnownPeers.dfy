/** The known_peers file: a printer and a forgiving line parser for `[[peer]]` tables. */
module KnownPeers {
  import opened Prelude
  import opened Text

  datatype Trust = Verified | Tofu

  datatype KnownPeer = KnownPeer(
    alias: string,
    peerId: string,
    addedAt: string,
    trust: Trust,
    homeRendezvous: string)

  /** A table under construction; an absent field is `None`. */
  datatype PartialPeer = PartialPeer(
    alias: Option<string>,
    peerId: Option<string>,
    addedAt: Option<string>,
    trust: Option<Trust>,
    homeRendezvous: Option<string>)

  const EMPTY := PartialPeer(None, None, None, None, None)

  datatype ParseError =
    | MissingAlias
    | MissingPeerId(alias: string)
    | MissingHome(alias: string)
    | InvalidTrust(found: string)

  // ── The parser ───────────────────────────────────────────────────────────

  /** The value without one pair of surrounding quotes; a lone quote is its own pair. */
  function Unquoted(v: string): string {
    if v != [] && v[0] == v[|v| - 1] && (v[0] == '"' || v[0] == '\'')
    then (if |v| == 1 then "" else v[1..|v| - 1])
    else v
  }

  /** `a || fallback`: an empty string counts as absent. */
  function OrElse(a: Option<string>, fallback: string): string {
    if a.None? || a.value == "" then fallback else a.value
  }

  function ValidatePeer(p: PartialPeer, now: string): Result<KnownPeer, ParseError> {
    if OrElse(p.alias, "") == "" then Err(MissingAlias)
    else if OrElse(p.peerId, "") == "" then Err(MissingPeerId(p.alias.value))
    else if OrElse(p.homeRendezvous, "") == "" then Err(MissingHome(p.alias.value))
    else Ok(KnownPeer(
              p.alias.value,
              p.peerId.value,
              OrElse(p.addedAt, now),
              if p.trust.None? then Tofu else p.trust.value,
              p.homeRendezvous.value))
  }

  function Assign(p: PartialPeer, key: string, value: string): Result<PartialPeer, ParseError> {
    match key
    case "alias" => Ok(p.(alias := Some(value)))
    case "peer_id" => Ok(p.(peerId := Some(value)))
    case "added_at" => Ok(p.(addedAt := Some(value)))
    case "trust" =>
      if value == "verified" then Ok(p.(trust := Some(Verified)))
      else if value == "tofu" then Ok(p.(trust := Some(Tofu)))
      else Err(InvalidTrust(value))
    case "home_rendezvous" => Ok(p.(homeRendezvous := Some(value)))
    case _ => Ok(p)
  }

  /** What the parser has after some lines: finished peers and the open table. */
  datatype Parser = Parser(peers: seq<KnownPeer>, current: Option<PartialPeer>)

  function Close(st: Parser, now: string): Result<seq<KnownPeer>, ParseError> {
    match st.current
    case None => Ok(st.peers)
    case Some(p) =>
      match ValidatePeer(p, now)
      case Err(e) => Err(e)
      case Ok(peer) => Ok(st.peers + [peer])
  }

  function ParseLine(st: Parser, line: string, now: string): Result<Parser, ParseError> {
    var trimmed := Trim(line);
    if trimmed == "" || trimmed[0] == '#' then Ok(st)
    else if trimmed == "[[peer]]" then
      match Close(st, now)
      case Err(e) => Err(e)
      case Ok(peers) => Ok(Parser(peers, Some(EMPTY)))
    else if st.current.None? then Ok(st)
    else
      match IndexOf(trimmed, '=')
      case None => Ok(st)
      case Some(eq) =>
        match Assign(st.current.value, Trim(trimmed[..eq]), Unquoted(Trim(trimmed[eq + 1..])))
        case Err(e) => Err(e)
        case Ok(p) => Ok(Parser(st.peers, Some(p)))
  }

  function ParseLines(st: Parser, ls: seq<string>, now: string): Result<Parser, ParseError>
    decreases |ls|
  {
    if ls == [] then Ok(st)
    else
      match ParseLine(st, ls[0], now)
      case Err(e) => Err(e)
      case Ok(next) => ParseLines(next, ls[1..], now)
  }

  function ParseToEnd(st: Parser, ls: seq<string>, now: string): Result<seq<KnownPeer>, ParseError> {
    match ParseLines(st, ls, now)
    case Err(e) => Err(e)
    case Ok(last) => Close(last, now)
  }

  function Parse(content: string, now: string): Result<seq<KnownPeer>, ParseError> {
    ParseToEnd(Parser([], None), Lines(content), now)
  }

  /** `now` is what the clock prints when a table has no `added_at`. */
  method ParseKnownPeers(content: string, now: string) returns (r: Result<seq<KnownPeer>, ParseError>)
    ensures r == Parse(content, now)
  {
    var peers: seq<KnownPeer> := [];
    var current: Option<PartialPeer> := None;
    var lines := Lines(content);
    for i := 0 to |lines|
      invariant ParseLines(Parser([], None), lines, now) == ParseLines(Parser(peers, current), lines[i..], now)
    {
      assert lines[i..][1..] == lines[i + 1..];
      var trimmed := Trim(lines[i]);
      if trimmed == "" || trimmed[0] == '#' {
        continue;
      }
      if trimmed == "[[peer]]" {
        if current.Some? {
          var peer := ValidatePeer(current.value, now);
          if peer.Err? {
            return Err(peer.error);
          }
          peers := peers + [peer.value];
        }
        current := Some(EMPTY);
        continue;
      }
      if current.None? {
        continue;
      }
      var eqIdx := IndexOf(trimmed, '=');
      if eqIdx.None? {
        continue;
      }
      var key := Trim(trimmed[..eqIdx.value]);
      var value := Unquoted(Trim(trimmed[eqIdx.value + 1..]));
      var updated := Assign(current.value, key, value);
      if updated.Err? {
        return Err(updated.error);
      }
      current := Some(updated.value);
    }
    if current.Some? {
      var peer := ValidatePeer(current.value, now);
      if peer.Err? {
        return Err(peer.error);
      }
      peers := peers + [peer.value];
    }
    r := Ok(peers);
  }

  // ── The printer ──────────────────────────────────────────────────────────

  function TrustText(t: Trust): string {
    match t case Verified => "verified" case Tofu => "tofu"
  }

  function Entry(key: string, value: string): string {
    key + " = \"" + value + "\""
  }

  function PeerLines(p: KnownPeer): (ls: seq<string>)
    ensures |ls| == 7
  {
    ["[[peer]]",
     Entry("alias", p.alias),
     Entry("peer_id", p.peerId),
     Entry("added_at", p.addedAt),
     Entry("trust", TrustText(p.trust)),
     Entry("home_rendezvous", p.homeRendezvous),
     ""]
  }

  function AllLines(peers: seq<KnownPeer>): seq<string> {
    if peers == [] then [] else PeerLines(peers[0]) + AllLines(peers[1..])
  }

  function Serialize(peers: seq<KnownPeer>): string {
    JoinLines(AllLines(peers))
  }

  lemma AllLinesStep(lines: seq<string>, peers: seq<KnownPeer>, i: nat)
    requires i < |peers|
    ensures lines + AllLines(peers[i..]) == lines + PeerLines(peers[i]) + AllLines(peers[i + 1..])
  {
    var rest := peers[i..];
    assert rest[1..] == peers[i + 1..];
    var a, b := PeerLines(peers[i]), AllLines(rest[1..]);
    assert lines + (a + b) == lines + a + b;
  }

  method SerializeKnownPeers(peers: seq<KnownPeer>) returns (content: string)
    ensures content == Serialize(peers)
  {
    var lines: seq<string> := [];
    for i := 0 to |peers|
      invariant AllLines(peers) == lines + AllLines(peers[i..])
    {
      var peer := peers[i];
      ghost var before := lines;
      AllLinesStep(lines, peers, i);
      lines := lines + ["[[peer]]"];
      lines := lines + [Entry("alias", peer.alias)];
      lines := lines + [Entry("peer_id", peer.peerId)];
      lines := lines + [Entry("added_at", peer.addedAt)];
      lines := lines + [Entry("trust", TrustText(peer.trust))];
      lines := lines + [Entry("home_rendezvous", peer.homeRendezvous)];
      lines := lines + [""];
      assert lines == before + PeerLines(peer);
    }
    assert peers[|peers|..] == [];
    assert lines + AllLines([]) == lines;
    content := JoinLines(lines);
  }

  // ── Round trip ───────────────────────────────────────────────────────────

  predicate CleanField(s: string) {
    s != "" && '\n' !in s
  }

  predicate Clean(p: KnownPeer) {
    CleanField(p.alias) && CleanField(p.peerId) && CleanField(p.addedAt) && CleanField(p.homeRendezvous)
  }

  predicate AllClean(peers: seq<KnownPeer>) {
    forall i :: 0 <= i < |peers| ==> Clean(peers[i])
  }

  predicate IsFieldKey(key: string) {
    key in {"alias", "peer_id", "added_at", "trust", "home_rendezvous"}
  }

  lemma FieldKeyShape(key: string)
    requires IsFieldKey(key)
    ensures key != [] && '=' !in key && !IsSpace(key[0]) && !IsSpace(key[|key| - 1])
    ensures key[0] != '#' && key[0] != '[' && '\n' !in key
  {
  }

  /** A printed entry is read back as an assignment of exactly the printed value, whatever
      quotes, `=` or `#` the value holds. */
  lemma ParseEntry(peers: seq<KnownPeer>, p: PartialPeer, key: string, value: string, now: string)
    requires IsFieldKey(key)
    ensures ParseLine(Parser(peers, Some(p)), Entry(key, value), now)
         == match Assign(p, key, value)
            case Err(e) => Err(e)
            case Ok(q) => Ok(Parser(peers, Some(q)))
  {
    var line := Entry(key, value);
    FieldKeyShape(key);
    TrimNothing(line);
    assert line == (key + " ") + ['='] + (" \"" + value + "\"");
    IndexOfFirst(key + " ", '=', " \"" + value + "\"");
    assert line[..|key| + 1] == key + " ";
    assert line[|key| + 2..] == " \"" + value + "\"";
    TrimKey(key);
    TrimQuoted(value);
    // Hidden in the goal only, here and below: the steps before need the definitions.
    hide Assign, Trim, IsSpace, IndexOf, Unquoted, Close;
  }

  lemma TrimKey(key: string)
    requires key != [] && !IsSpace(key[0]) && !IsSpace(key[|key| - 1])
    ensures Trim(key + " ") == key
  {
    var s := key + " ";
    assert s[..|key|] == key;
    assert TrimStart(s) == s;
    assert TrimEnd(s) == TrimEnd(key);
  }

  lemma TrimQuoted(value: string)
    ensures Unquoted(Trim(" \"" + value + "\"")) == value
  {
    var q := "\"" + value + "\"";
    assert (" \"" + value + "\"")[1..] == q;
    TrimNothing(q);
    assert q[1..|q| - 1] == value;
  }

  lemma {:induction false} ParseLinesConcat(st: Parser, a: seq<string>, b: seq<string>, now: string)
    ensures ParseLines(st, a + b, now)
         == match ParseLines(st, a, now)
            case Err(e) => Err(e)
            case Ok(mid) => ParseLines(mid, b, now)
    decreases |a|
  {
    if a == [] {
      assert a + b == b;
    } else {
      assert (a + b)[1..] == a[1..] + b;
      match ParseLine(st, a[0], now) {
        case Err(_) =>
        case Ok(next) => ParseLinesConcat(next, a[1..], b, now);
      }
    }
  }

  function Filled(p: KnownPeer): PartialPeer {
    PartialPeer(Some(p.alias), Some(p.peerId), Some(p.addedAt), Some(p.trust), Some(p.homeRendezvous))
  }

  /** The seven printed lines of a peer close the table before them and open a complete one. */
  lemma ParsePeerLines(st: Parser, p: KnownPeer, now: string)
    requires Close(st, now).Ok?
    ensures ParseLines(st, PeerLines(p), now) == Ok(Parser(Close(st, now).value, Some(Filled(p))))
  {
    hide ParseLine, ParseLines, Close, Entry, ValidatePeer;
    var ls := PeerLines(p);
    var peers := Close(st, now).value;
    var p0 := EMPTY;
    var p1 := p0.(alias := Some(p.alias));
    var p2 := p1.(peerId := Some(p.peerId));
    var p3 := p2.(addedAt := Some(p.addedAt));
    var p4 := p3.(trust := Some(p.trust));
    ParseHeader(st, now);
    ParseEntry(peers, p0, "alias", p.alias, now);
    ParseEntry(peers, p1, "peer_id", p.peerId, now);
    ParseEntry(peers, p2, "added_at", p.addedAt, now);
    ParseEntry(peers, p3, "trust", TrustText(p.trust), now);
    ParseEntry(peers, p4, "home_rendezvous", p.homeRendezvous, now);
    ParseBlank(Parser(peers, Some(Filled(p))), now);
    ParseStep(st, Parser(peers, Some(p0)), ls, now);
    ParseStep(Parser(peers, Some(p0)), Parser(peers, Some(p1)), ls[1..], now);
    ParseStep(Parser(peers, Some(p1)), Parser(peers, Some(p2)), ls[2..], now);
    ParseStep(Parser(peers, Some(p2)), Parser(peers, Some(p3)), ls[3..], now);
    ParseStep(Parser(peers, Some(p3)), Parser(peers, Some(p4)), ls[4..], now);
    ParseStep(Parser(peers, Some(p4)), Parser(peers, Some(Filled(p))), ls[5..], now);
    ParseStep(Parser(peers, Some(Filled(p))), Parser(peers, Some(Filled(p))), ls[6..], now);
    ParseNothing(Parser(peers, Some(Filled(p))), ls[7..], now);
  }

  lemma ParseHeader(st: Parser, now: string)
    requires Close(st, now).Ok?
    ensures ParseLine(st, "[[peer]]", now) == Ok(Parser(Close(st, now).value, Some(EMPTY)))
  {
    TrimNothing("[[peer]]");
  }

  lemma ParseBlank(st: Parser, now: string)
    ensures ParseLine(st, "", now) == Ok(st)
  {
  }

  lemma ParseNothing(st: Parser, ls: seq<string>, now: string)
    requires ls == []
    ensures ParseLines(st, ls, now) == Ok(st)
  {
  }

  lemma ParseStep(st: Parser, next: Parser, ls: seq<string>, now: string)
    requires ls != [] && ParseLine(st, ls[0], now) == Ok(next)
    ensures ParseLines(st, ls, now) == ParseLines(next, ls[1..], now)
  {
  }

  lemma CloseFilled(peers: seq<KnownPeer>, p: KnownPeer, now: string)
    requires Clean(p)
    ensures Close(Parser(peers, Some(Filled(p))), now) == Ok(peers + [p])
  {
  }

  lemma ParseToEndConcat(st: Parser, a: seq<string>, mid: Parser, b: seq<string>, now: string)
    requires ParseLines(st, a, now) == Ok(mid)
    ensures ParseToEnd(st, a + b, now) == ParseToEnd(mid, b, now)
  {
    ParseLinesConcat(st, a, b, now);
  }

  lemma ParseOnePeer(st: Parser, p: KnownPeer, rest: seq<string>, now: string)
    requires Close(st, now).Ok?
    ensures ParseToEnd(st, PeerLines(p) + rest, now)
         == ParseToEnd(Parser(Close(st, now).value, Some(Filled(p))), rest, now)
  {
    hide ParseToEnd, PeerLines, Close;
    ParsePeerLines(st, p, now);
    ParseToEndConcat(st, PeerLines(p), Parser(Close(st, now).value, Some(Filled(p))), rest, now);
  }

  lemma ParseNoLines(st: Parser, now: string)
    ensures ParseToEnd(st, [], now) == Close(st, now)
  {
  }

  lemma {:induction false} ParseAllLines(st: Parser, peers: seq<KnownPeer>, now: string)
    requires AllClean(peers) && Close(st, now).Ok?
    ensures ParseToEnd(st, AllLines(peers), now) == Ok(Close(st, now).value + peers)
    decreases |peers|
  {
    hide ParseToEnd, PeerLines, Close, Clean, Filled;
    var done := Close(st, now).value;
    if peers == [] {
      ParseNoLines(st, now);
      assert done + peers == done;
    } else {
      ParseOnePeer(st, peers[0], AllLines(peers[1..]), now);
      CloseFilled(done, peers[0], now);
      ParseAllLines(Parser(done, Some(Filled(peers[0]))), peers[1..], now);
      assert done + [peers[0]] + peers[1..] == done + peers;
    }
  }

  lemma {:induction false} AllLinesPlain(peers: seq<KnownPeer>)
    requires AllClean(peers)
    ensures forall i :: 0 <= i < |AllLines(peers)| ==> '\n' !in AllLines(peers)[i]
  {
    if peers == [] {
    } else {
      assert Clean(peers[0]);
      AllLinesPlain(peers[1..]);
    }
  }

  // ── Every accepted file is clean ─────────────────────────────────────────

  predicate NoNewline(o: Option<string>) {
    o.Some? ==> '\n' !in o.value
  }

  predicate PlainPartial(p: PartialPeer) {
    NoNewline(p.alias) && NoNewline(p.peerId) && NoNewline(p.addedAt) && NoNewline(p.homeRendezvous)
  }

  predicate PlainParser(st: Parser) {
    AllClean(st.peers) && (st.current.Some? ==> PlainPartial(st.current.value))
  }

  lemma ClosePlain(st: Parser, now: string)
    requires PlainParser(st) && CleanField(now) && Close(st, now).Ok?
    ensures AllClean(Close(st, now).value)
  {
  }

  lemma ParseLinePlain(st: Parser, line: string, now: string)
    requires PlainParser(st) && CleanField(now) && '\n' !in line && ParseLine(st, line, now).Ok?
    ensures PlainParser(ParseLine(st, line, now).value)
  {
    hide Trim, IsSpace, ValidatePeer, Assign, Unquoted;
    var trimmed := Trim(line);
    TrimPlain(line);
    if Close(st, now).Ok? {
      ClosePlain(st, now);
    }
    if st.current.Some? && IndexOf(trimmed, '=').Some? {
      var eq := IndexOf(trimmed, '=').value;
      TrimPlain(trimmed[eq + 1..]);
      UnquotedPlain(Trim(trimmed[eq + 1..]));
      AssignPlain(st.current.value, Trim(trimmed[..eq]), Unquoted(Trim(trimmed[eq + 1..])));
    }
  }

  lemma UnquotedPlain(v: string)
    requires '\n' !in v
    ensures '\n' !in Unquoted(v)
  {
  }

  lemma AssignPlain(p: PartialPeer, key: string, value: string)
    requires PlainPartial(p) && '\n' !in value
    ensures Assign(p, key, value).Ok? ==> PlainPartial(Assign(p, key, value).value)
  {
  }

  lemma {:induction false} ParseLinesPlain(st: Parser, ls: seq<string>, now: string)
    requires PlainParser(st) && CleanField(now)
    requires forall i :: 0 <= i < |ls| ==> '\n' !in ls[i]
    requires ParseLines(st, ls, now).Ok?
    ensures PlainParser(ParseLines(st, ls, now).value)
    decreases |ls|
  {
    if ls == [] {
    } else {
      ParseLinePlain(st, ls[0], now);
      ParseLinesPlain(ParseLine(st, ls[0], now).value, ls[1..], now);
    }
  }

  /** Whatever file is accepted, every field of the result is non-empty and newline-free. */
  lemma ParsedIsClean(content: string, now: string)
    requires CleanField(now) && Parse(content, now).Ok?
    ensures AllClean(Parse(content, now).value)
  {
    LinesHaveNoNewline(content);
    ParseLinesPlain(Parser([], None), Lines(content), now);
    ClosePlain(ParseLines(Parser([], None), Lines(content), now).value, now);
  }

  lemma ParseNone(now: string)
    ensures Parse(Serialize([]), now) == Ok([])
  {
    assert AllLines([]) == [];
    ParseBlank(Parser([], None), now);
    ParseStep(Parser([], None), Parser([], None), Lines(""), now);
    ParseNothing(Parser([], None), Lines("")[1..], now);
  }

  lemma AllLinesNonEmpty(peers: seq<KnownPeer>)
    requires peers != []
    ensures AllLines(peers) != []
  {
  }

  /** Printing and parsing gives the same list exactly when every field is non-empty and
      newline-free. */
  lemma RoundTripIff(peers: seq<KnownPeer>, now: string)
    requires CleanField(now)
    ensures Parse(Serialize(peers), now) == Ok(peers) <==> AllClean(peers)
  {
    hide ParseToEnd, PeerLines, Lines, JoinLines, ValidatePeer;
    if AllClean(peers) {
      ParseAllLines(Parser([], None), peers, now);
      assert [] + peers == peers;
      if peers == [] {
        ParseNone(now);
      } else {
        AllLinesPlain(peers);
        AllLinesNonEmpty(peers);
        LinesOfJoined(AllLines(peers));
      }
    }
    if Parse(Serialize(peers), now) == Ok(peers) {
      ParsedIsClean(Serialize(peers), now);
    }
  }

  /** Saving what was loaded and loading it again changes nothing, for every accepted file. */
  lemma Normalizes(content: string, now: string, later: string)
    requires CleanField(now) && CleanField(later) && Parse(content, now).Ok?
    ensures Parse(Serialize(Parse(content, now).value), later) == Parse(content, now)
  {
    ParsedIsClean(content, now);
    RoundTripIff(Parse(content, now).value, later);
  }
}
