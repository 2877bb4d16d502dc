/**
 * The FortiGate key=value scanner: `(\w+)=(?:"([^"]*)"|(\S+))` searched over a line, filling a
 * dictionary in which later keys win.
 */
module FortiGate {
  import opened Prelude

  predicate IsWord(c: char) {
    'a' <= c <= 'z' || 'A' <= c <= 'Z' || '0' <= c <= '9' || c == '_'
  }

  /** Unicode white space, as `\s` takes it. */
  predicate IsSpace(c: char) {
    var n := c as int;
    || c == ' ' || '\t' <= c <= '\r' || 0x1c <= n <= 0x1f || n == 0x85 || n == 0xa0 || n == 0x1680
    || 0x2000 <= n <= 0x200a || n == 0x2028 || n == 0x2029 || n == 0x202f || n == 0x205f || n == 0x3000
  }

  predicate IsVisible(c: char) { !IsSpace(c) }

  /** Main: the two classes by code point: the word characters of ASCII, and Unicode's white space. */
  lemma CharacterClasses(c: char)
    ensures IsWord(c) <==> 48 <= c as int <= 57 || 65 <= c as int <= 90 || c as int == 95 || 97 <= c as int <= 122
    ensures !IsVisible(c) <==>
              c as int in {9, 10, 11, 12, 13, 28, 29, 30, 31, 32, 133, 160, 5760, 8192, 8193, 8194, 8195, 8196, 8197,
                           8198, 8199, 8200, 8201, 8202, 8232, 8233, 8239, 8287, 12288}
  {
  }

  predicate NotQuote(c: char) { c != '"' }

  /** Where the characters satisfying p stop, looking from position i. */
  function RunEnd(s: string, i: nat, p: char -> bool): (n: nat)
    requires i <= |s|
    ensures i <= n <= |s| && forall j | i <= j < n :: p(s[j])
    ensures n < |s| ==> !p(s[n])
    decreases |s| - i
  {
    if i == |s| || !p(s[i]) then i else RunEnd(s, i + 1, p)
  }

  /** The length of the longest prefix whose characters all satisfy p: a greedy repetition. */
  function RunLength(s: string, p: char -> bool): (n: nat)
    ensures n <= |s| && forall i | 0 <= i < n :: p(s[i])
    ensures n < |s| ==> !p(s[n])
  {
    RunEnd(s, 0, p)
  }

  datatype Pair = Pair(key: string, value: string)

  datatype Match = Match(pair: Pair, length: nat)

  datatype Value = Value(text: string, length: nat)

  /** The value after the equals sign: quoted if a closing quote follows, else bare. */
  function ValueHead(rest: string): (v: Option<Value>)
    ensures v.Some? ==> 0 < v.value.length <= |rest|
  {
    var q := if rest != "" && rest[0] == '"' then RunLength(rest[1..], NotQuote) else |rest|;
    if q + 1 < |rest| then Some(Value(rest[1..q + 1], q + 2))
    else
      var b := RunLength(rest, IsVisible);
      if b > 0 then Some(Value(rest[..b], b)) else None
  }

  /** The match that starts at the first character, if any. */
  function MatchHead(s: string): (m: Option<Match>)
    ensures m.Some? ==> 0 < m.value.length <= |s|
  {
    var k := RunLength(s, IsWord);
    if k == 0 || k == |s| || s[k] != '=' then None
    else
      var v := ValueHead(s[k + 1..]);
      if v.None? then None else Some(Match(Pair(s[..k], v.value.text), k + 1 + v.value.length))
  }

  /** All matches from left to right, as `finditer` yields them for a pattern: given the text from
      some position on, `head` is the match that starts there, if any. Only patterns that match no
      empty text are meant. */
  function FindAll(s: string, head: string -> Option<Match>): seq<Pair>
    decreases |s|
  {
    if s == "" then []
    else
      var m := head(s);
      if m.Some? && 0 < m.value.length <= |s| then [m.value.pair] + FindAll(s[m.value.length..], head)
      else FindAll(s[1..], head)
  }

  function Scan(s: string): seq<Pair> { FindAll(s, MatchHead) }

  function LastWins(pairs: seq<Pair>): map<string, string> {
    if pairs == [] then map[]
    else LastWins(pairs[..|pairs| - 1])[pairs[|pairs| - 1].key := pairs[|pairs| - 1].value]
  }

  /** `seen` is what the search has found before position i. */
  ghost predicate Searched(raw: string, head: string -> Option<Match>, i: nat, seen: seq<Pair>) {
    i <= |raw| && seen + FindAll(raw[i..], head) == FindAll(raw, head)
  }

  lemma ConsSnoc(a: seq<Pair>, p: Pair, b: seq<Pair>)
    ensures a + ([p] + b) == (a + [p]) + b
  {
  }

  /** One turn of the search finds a pair and skips its match, or skips one character. */
  lemma SearchedOn(raw: string, head: string -> Option<Match>, i: nat, seen: seq<Pair>)
    requires i < |raw| && Searched(raw, head, i, seen)
    ensures var m := head(raw[i..]);
            if m.Some? && 0 < m.value.length <= |raw| - i
            then Searched(raw, head, i + m.value.length, seen + [m.value.pair])
            else Searched(raw, head, i + 1, seen)
  {
    var rest := raw[i..];
    var m := head(rest);
    if m.Some? && 0 < m.value.length <= |rest| {
      assert rest[m.value.length..] == raw[i + m.value.length..];
      ConsSnoc(seen, m.value.pair, FindAll(rest[m.value.length..], head));
    } else {
      assert rest[1..] == raw[i + 1..];
    }
  }

  lemma SearchedAll(raw: string, head: string -> Option<Match>, seen: seq<Pair>)
    ensures Searched(raw, head, 0, [])
    ensures Searched(raw, head, |raw|, seen) ==> seen == FindAll(raw, head)
  {
    assert raw[0..] == raw && [] + FindAll(raw, head) == FindAll(raw, head);
    assert seen + FindAll(raw[|raw|..], head) == seen;
  }

  lemma LastWinsSnoc(pairs: seq<Pair>, p: Pair)
    ensures LastWins(pairs + [p]) == LastWins(pairs)[p.key := p.value]
  {
    assert (pairs + [p])[..|pairs|] == pairs;
  }

  /** The loop over a pattern's matches: each is entered under its key. */
  method Collect(raw: string, head: string -> Option<Match>) returns (parsed: map<string, string>)
    ensures parsed == LastWins(FindAll(raw, head))
  {
    parsed := map[];
    var i := 0;
    ghost var seen: seq<Pair> := [];
    SearchedAll(raw, head, seen);
    while i < |raw|
      invariant Searched(raw, head, i, seen) && parsed == LastWins(seen)
      decreases |raw| - i
    {
      SearchedOn(raw, head, i, seen);
      var m := head(raw[i..]);
      if m.Some? && 0 < m.value.length <= |raw| - i {
        var p := m.value.pair;
        LastWinsSnoc(seen, p);
        parsed := parsed[p.key := p.value];
        seen := seen + [p];
        i := i + m.value.length;
      } else {
        i := i + 1;
      }
    }
    SearchedAll(raw, head, seen);
  }

  /** Parse a line into a flat dictionary. */
  method ParseEvent(raw: string) returns (parsed: map<string, string>)
    ensures parsed == LastWins(Scan(raw))
  {
    parsed := Collect(raw, MatchHead);
  }

  // ---- The regular expression itself ----

  /** One way the expression can match at the start: where the key ends, which alternative the
      value takes, and where the value ends (counted from the equals sign). */
  datatype Derivation = Derivation(keyEnd: nat, quoted: bool, valueEnd: nat)

  ghost predicate DerivesValue(rest: string, quoted: bool, end: nat) {
    if quoted then
      && 1 <= end < |rest| && rest[0] == '"' && rest[end] == '"'
      && forall i | 1 <= i < end :: rest[i] != '"'
    else
      0 < end <= |rest| && forall i | 0 <= i < end :: IsVisible(rest[i])
  }

  ghost predicate Derives(s: string, d: Derivation) {
    && 0 < d.keyEnd < |s| && (forall i | 0 <= i < d.keyEnd :: IsWord(s[i])) && s[d.keyEnd] == '='
    && DerivesValue(s[d.keyEnd + 1..], d.quoted, d.valueEnd)
  }

  ghost function CapturedValue(rest: string, quoted: bool, end: nat): Value
    requires DerivesValue(rest, quoted, end)
  {
    if quoted then Value(rest[1..end], end + 1) else Value(rest[..end], end)
  }

  ghost function Captured(s: string, d: Derivation): Match
    requires Derives(s, d)
  {
    var v := CapturedValue(s[d.keyEnd + 1..], d.quoted, d.valueEnd);
    Match(Pair(s[..d.keyEnd], v.text), d.keyEnd + 1 + v.length)
  }

  /** The order in which a backtracking engine tries derivations: longer keys first, the quoted
      alternative before the bare one, longer values first. */
  predicate TriedBefore(a: Derivation, b: Derivation) {
    || a.keyEnd > b.keyEnd
    || (a.keyEnd == b.keyEnd && a.quoted && !b.quoted)
    || (a.keyEnd == b.keyEnd && a.quoted == b.quoted && a.valueEnd > b.valueEnd)
  }

  /** The key of any derivation is the whole run of word characters. */
  lemma KeyIsWholeRun(s: string, d: Derivation)
    requires Derives(s, d)
    ensures d.keyEnd == RunLength(s, IsWord)
  {
  }

  /** A quoted value ends at the first quote after the opening one. */
  lemma QuotedValue(rest: string, end: nat)
    ensures DerivesValue(rest, true, end)
       <==> rest != "" && rest[0] == '"' && end == RunLength(rest[1..], NotQuote) + 1 && end < |rest|
  {
    if rest != "" {
      var tail := rest[1..];
      assert forall i | 0 <= i < |tail| :: tail[i] == rest[i + 1];
      assert forall i | 1 <= i < |rest| :: rest[i] == tail[i - 1];
    }
  }

  lemma BareValue(rest: string, end: nat)
    ensures DerivesValue(rest, false, end) <==> 0 < end <= RunLength(rest, IsVisible)
  {
  }

  /** `quoted` and `end` are the first derivation of the value in trying order. */
  ghost predicate FirstValue(rest: string, quoted: bool, end: nat) {
    && DerivesValue(rest, quoted, end)
    && forall q: bool, e: nat | DerivesValue(rest, q, e) :: (quoted || !q) && (q == quoted ==> e <= end)
  }

  /** The value found is the first in trying order, and none is found only if there is none. */
  lemma ValueIsFirst(rest: string)
    ensures ValueHead(rest).None? ==> forall quoted: bool, end: nat :: !DerivesValue(rest, quoted, end)
    ensures ValueHead(rest).Some? ==>
      exists quoted: bool, end: nat ::
        FirstValue(rest, quoted, end) && ValueHead(rest) == Some(CapturedValue(rest, quoted, end))
  {
    forall end: nat ensures DerivesValue(rest, true, end)
        <==> rest != "" && rest[0] == '"' && end == RunLength(rest[1..], NotQuote) + 1 && end < |rest| { QuotedValue(rest, end); }
    forall end: nat ensures DerivesValue(rest, false, end) <==> 0 < end <= RunLength(rest, IsVisible) { BareValue(rest, end); }
    if rest != "" && rest[0] == '"' && RunLength(rest[1..], NotQuote) + 1 < |rest| {
      assert FirstValue(rest, true, RunLength(rest[1..], NotQuote) + 1);
    } else if RunLength(rest, IsVisible) > 0 {
      assert FirstValue(rest, false, RunLength(rest, IsVisible));
    }
  }

  /** The first derivation of the value, after the whole key, is the first of the match. */
  lemma FirstMatch(s: string, k: nat, quoted: bool, end: nat)
    requires 0 < k < |s| && k == RunLength(s, IsWord) && s[k] == '=' && FirstValue(s[k + 1..], quoted, end)
    ensures Derives(s, Derivation(k, quoted, end))
    ensures forall e | Derives(s, e) :: !TriedBefore(e, Derivation(k, quoted, end))
  {
    forall e | Derives(s, e) ensures !TriedBefore(e, Derivation(k, quoted, end)) {
      KeyIsWholeRun(s, e);
      assert DerivesValue(s[k + 1..], e.quoted, e.valueEnd);
    }
  }

  lemma NoMatch(s: string, d: Derivation)
    requires MatchHead(s).None?
    ensures !Derives(s, d)
  {
    if Derives(s, d) {
      KeyIsWholeRun(s, d);
      ValueIsFirst(s[d.keyEnd + 1..]);
    }
  }

  /** Main: the scanner finds a match exactly when the expression has one, and it is the one a
      backtracking engine tries first. */
  lemma MatchIsFirstDerivation(s: string)
    ensures MatchHead(s).None? ==> forall d :: !Derives(s, d)
    ensures MatchHead(s).Some? ==>
      exists d :: Derives(s, d) && MatchHead(s) == Some(Captured(s, d))
               && forall e | Derives(s, e) :: !TriedBefore(e, d)
  {
    var k := RunLength(s, IsWord);
    if 0 < k < |s| && s[k] == '=' && ValueHead(s[k + 1..]).Some? {
      var rest := s[k + 1..];
      ValueIsFirst(rest);
      var quoted: bool, end: nat :| FirstValue(rest, quoted, end) && ValueHead(rest) == Some(CapturedValue(rest, quoted, end));
      FirstMatch(s, k, quoted, end);
      assert MatchHead(s) == Some(Captured(s, Derivation(k, quoted, end)));
    } else {
      forall d ensures !Derives(s, d) { NoMatch(s, d); }
    }
  }

  // ---- The search over a line ----

  /** A match found: where it starts and what it captures. */
  datatype Spot = Spot(start: nat, found: Match)

  predicate HitAt(s: string, head: string -> Option<Match>, p: nat) {
    p < |s| && var m := head(s[p..]); m.Some? && 0 < m.value.length <= |s| - p
  }

  /** The spots are all that a search from position i finds: each starts where the pattern first
      matches after the end of the one before, and after the last it matches nowhere. */
  ghost predicate FoundFrom(s: string, head: string -> Option<Match>, i: nat, spots: seq<Spot>)
    decreases |spots|
  {
    if spots == [] then forall p: nat | i <= p :: !HitAt(s, head, p)
    else
      var spot := spots[0];
      && i <= spot.start && HitAt(s, head, spot.start) && head(s[spot.start..]) == Some(spot.found)
      && (forall p: nat | i <= p < spot.start :: !HitAt(s, head, p))
      && FoundFrom(s, head, spot.start + spot.found.length, spots[1..])
  }

  function PairsFound(spots: seq<Spot>): seq<Pair> {
    if spots == [] then [] else [spots[0].found.pair] + PairsFound(spots[1..])
  }

  lemma FoundOneEarlier(s: string, head: string -> Option<Match>, i: nat, spots: seq<Spot>)
    requires !HitAt(s, head, i) && FoundFrom(s, head, i + 1, spots)
    ensures FoundFrom(s, head, i, spots)
  {
  }

  /** Main: a search finds the matches of its pattern from left to right, without overlap, each at the
      first position where the pattern matches again, and misses none. */
  lemma {:induction false} SearchIsLeftmost(s: string, head: string -> Option<Match>, i: nat) returns (spots: seq<Spot>)
    requires i <= |s|
    ensures FoundFrom(s, head, i, spots) && FindAll(s[i..], head) == PairsFound(spots)
    decreases |s| - i
  {
    if i == |s| {
      spots := [];
    } else if HitAt(s, head, i) {
      var m := head(s[i..]).value;
      assert s[i..][m.length..] == s[i + m.length..];
      var rest := SearchIsLeftmost(s, head, i + m.length);
      spots := [Spot(i, m)] + rest;
      assert spots[1..] == rest;
    } else {
      assert s[i..][1..] == s[i + 1..];
      spots := SearchIsLeftmost(s, head, i + 1);
      FoundOneEarlier(s, head, i, spots);
    }
  }

  /** Main: the scanner's pattern matches at a position exactly when the expression does, and captures
      what the derivation tried first captures. */
  lemma HitIffDerives(s: string, p: nat)
    requires p < |s|
    ensures HitAt(s, MatchHead, p) <==> exists d :: Derives(s[p..], d)
    ensures HitAt(s, MatchHead, p) ==>
              exists d :: Derives(s[p..], d) && MatchHead(s[p..]) == Some(Captured(s[p..], d))
                       && forall e | Derives(s[p..], e) :: !TriedBefore(e, d)
  {
    MatchIsFirstDerivation(s[p..]);
  }

  // ---- Print and parse ----

  datatype Token = Quoted(key: string, value: string) | Bare(key: string, value: string)

  ghost predicate Printable(t: Token) {
    && t.key != "" && (forall i | 0 <= i < |t.key| :: IsWord(t.key[i]))
    && match t
       case Quoted(_, v) => forall i | 0 <= i < |v| :: v[i] != '"'
       case Bare(_, v) => v != "" && v[0] != '"' && forall i | 0 <= i < |v| :: IsVisible(v[i])
  }

  function PrintToken(t: Token): string {
    match t
    case Quoted(k, v) => k + "=" + "\"" + v + "\""
    case Bare(k, v) => k + "=" + v
  }

  function Print(ts: seq<Token>): string {
    if ts == [] then "" else PrintToken(ts[0]) + if |ts| == 1 then "" else " " + Print(ts[1..])
  }

  function PairOf(t: Token): Pair { Pair(t.key, t.value) }

  function Pairs(ts: seq<Token>): seq<Pair> {
    if ts == [] then [] else [PairOf(ts[0])] + Pairs(ts[1..])
  }

  lemma RunOf(s: string, p: char -> bool, n: nat)
    requires n <= |s| && (forall i | 0 <= i < n :: p(s[i])) && (n < |s| ==> !p(s[n]))
    ensures RunLength(s, p) == n
  {
  }

  lemma QuotedMatched(v: string, after: string)
    requires forall i | 0 <= i < |v| :: v[i] != '"'
    ensures ValueHead("\"" + v + "\"" + after) == Some(Value(v, |v| + 2))
  {
    var rest := "\"" + v + "\"" + after;
    var tail := rest[1..];
    assert rest[0] == '"';
    assert |tail| == |v| + 1 + |after|;
    assert forall i | 0 <= i < |v| :: tail[i] == v[i];
    assert tail[|v|] == '"';
    RunOf(tail, NotQuote, |v|);
    assert rest[1..|v| + 1] == v;
  }

  lemma BareMatched(v: string, after: string)
    requires v != "" && v[0] != '"' && (forall i | 0 <= i < |v| :: IsVisible(v[i]))
    requires after == "" || after[0] == ' '
    ensures ValueHead(v + after) == Some(Value(v, |v|))
  {
    var rest := v + after;
    assert rest[0] == v[0];
    RunOf(rest, IsVisible, |v|);
    assert rest[..|v|] == v;
  }

  /** A key followed by an equals sign hands the match over to the value. */
  lemma KeyMatched(key: string, rest: string, v: Value)
    requires key != "" && (forall i | 0 <= i < |key| :: IsWord(key[i]))
    requires ValueHead(rest) == Some(v)
    ensures MatchHead(key + "=" + rest) == Some(Match(Pair(key, v.text), |key| + 1 + v.length))
  {
    var s := key + "=" + rest;
    assert forall i | 0 <= i < |key| :: s[i] == key[i];
    assert s[|key|] == '=';
    RunOf(s, IsWord, |key|);
    assert s[..|key|] == key;
    assert s[|key| + 1..] == rest;
  }

  lemma Regroup(k: string, eq: string, q: string, v: string, after: string)
    ensures k + eq + q + v + q + after == k + eq + (q + v + q + after)
    ensures k + eq + v + after == k + eq + (v + after)
  {
  }

  lemma QuotedTokenMatched(k: string, v: string, after: string)
    requires Printable(Quoted(k, v))
    ensures MatchHead(PrintToken(Quoted(k, v)) + after) == Some(Match(Pair(k, v), |PrintToken(Quoted(k, v))|))
  {
    QuotedMatched(v, after);
    KeyMatched(k, "\"" + v + "\"" + after, Value(v, |v| + 2));
    Regroup(k, "=", "\"", v, after);
  }

  lemma BareTokenMatched(k: string, v: string, after: string)
    requires Printable(Bare(k, v)) && (after == "" || after[0] == ' ')
    ensures MatchHead(PrintToken(Bare(k, v)) + after) == Some(Match(Pair(k, v), |PrintToken(Bare(k, v))|))
  {
    BareMatched(v, after);
    KeyMatched(k, v + after, Value(v, |v|));
    Regroup(k, "=", "\"", v, after);
  }

  /** Whatever follows it, a printed token is matched whole, provided a space ends it. */
  lemma TokenMatched(t: Token, after: string)
    requires Printable(t) && (after == "" || after[0] == ' ')
    ensures MatchHead(PrintToken(t) + after) == Some(Match(PairOf(t), |PrintToken(t)|))
  {
    match t
    case Quoted(k, v) => QuotedTokenMatched(k, v, after);
    case Bare(k, v) => BareTokenMatched(k, v, after);
  }

  lemma ScanStep(head: string, after: string, p: Pair)
    requires MatchHead(head + after) == Some(Match(p, |head|))
    ensures Scan(head + after) == [p] + Scan(after)
  {
    assert (head + after)[|head|..] == after;
  }

  lemma ScanSpace(rest: string)
    ensures Scan(" " + rest) == Scan(rest)
  {
    var s := " " + rest;
    assert s[1..] == rest;
    RunOf(s, IsWord, 0);
  }

  /** Main: scanning a printed list yields its pairs, in order, and nothing else: text that looks
      like key=value inside a quoted value is never scanned. */
  lemma {:induction false} ScanRoundTrip(ts: seq<Token>)
    requires forall t | t in ts :: Printable(t)
    ensures Scan(Print(ts)) == Pairs(ts)
  {
    if ts != [] {
      assert ts[0] in ts;
      var rest := Print(ts[1..]);
      var after := if |ts| == 1 then "" else " " + rest;
      TokenMatched(ts[0], after);
      ScanStep(PrintToken(ts[0]), after, PairOf(ts[0]));
      ScanRoundTrip(ts[1..]);
      if |ts| > 1 { ScanSpace(rest); }
    }
  }

  /** The dictionary holds the scanned keys, each with the value of its last pair. */
  lemma {:induction false} LastWinsIsTheLast(pairs: seq<Pair>, j: nat)
    requires j < |pairs|
    requires forall i | j < i < |pairs| :: pairs[i].key != pairs[j].key
    ensures pairs[j].key in LastWins(pairs) && LastWins(pairs)[pairs[j].key] == pairs[j].value
  {
    if j < |pairs| - 1 {
      LastWinsIsTheLast(pairs[..|pairs| - 1], j);
    }
  }

  lemma {:induction false} LastWinsIsAPair(pairs: seq<Pair>, k: string)
    requires k in LastWins(pairs)
    ensures Pair(k, LastWins(pairs)[k]) in pairs
  {
    var n := |pairs| - 1;
    if pairs[n].key != k {
      LastWinsIsAPair(pairs[..n], k);
    }
  }

  lemma {:induction false} PairsAt(ts: seq<Token>)
    ensures |Pairs(ts)| == |ts| && forall i | 0 <= i < |ts| :: Pairs(ts)[i] == PairOf(ts[i])
  {
    if ts != [] { PairsAt(ts[1..]); }
  }

  lemma LastTokensWin(ts: seq<Token>, pairs: seq<Pair>)
    requires |pairs| == |ts| && forall i | 0 <= i < |ts| :: pairs[i] == PairOf(ts[i])
    ensures forall k | k in LastWins(pairs) :: exists i | 0 <= i < |ts| :: ts[i].key == k && ts[i].value == LastWins(pairs)[k]
    ensures forall j | 0 <= j < |ts| && (forall i | j < i < |ts| :: ts[i].key != ts[j].key) ::
              ts[j].key in LastWins(pairs) && LastWins(pairs)[ts[j].key] == ts[j].value
  {
    var parsed := LastWins(pairs);
    forall k | k in parsed
      ensures exists i | 0 <= i < |ts| :: ts[i].key == k && ts[i].value == parsed[k]
    {
      LastWinsIsAPair(pairs, k);
      var i: nat :| i < |pairs| && pairs[i] == Pair(k, parsed[k]);
      assert ts[i].key == k && ts[i].value == parsed[k];
    }
    forall j | 0 <= j < |ts| && (forall i | j < i < |ts| :: ts[i].key != ts[j].key)
      ensures ts[j].key in parsed && parsed[ts[j].key] == ts[j].value
    {
      LastWinsIsTheLast(pairs, j);
    }
  }

  /** Main: a printed list parses back to its dictionary. Every key of the dictionary was printed as
      a key, and the last token printed under a key is the one that remains. */
  lemma PrintedParsesBack(ts: seq<Token>)
    requires forall t | t in ts :: Printable(t)
    ensures var parsed := LastWins(Scan(Print(ts)));
            && (forall k | k in parsed :: exists i | 0 <= i < |ts| :: ts[i].key == k && ts[i].value == parsed[k])
            && (forall j | 0 <= j < |ts| && (forall i | j < i < |ts| :: ts[i].key != ts[j].key) ::
                  ts[j].key in parsed && parsed[ts[j].key] == ts[j].value)
  {
    ScanRoundTrip(ts);
    PairsAt(ts);
    LastTokensWin(ts, Pairs(ts));
  }
}
