/** Mux candidate negotiation (rpc/mux_candidate.go): each side prints its effective policy as one preface line, reads the
    other side's line byte by byte, parses it, and checks it against its own policy. */
module MuxCandidate {
  import opened GoStrings

  const DEFAULT_PROTOCOL := "gofly-mux/experimental-v1"
  const PREFIX := "GOFLY-MUX/1 "
  const MAX_PREFACE_BYTES := 512
  const DEFAULT_MAX_FRAME_BYTES := 0x40_0000

  const TWO_63 := 0x8000_0000_0000_0000

  predicate IsInt64(x: int) {
    -TWO_63 <= x < TWO_63
  }

  /** The 64-bit result of an integer operation. */
  function Wrap64(x: int): int {
    (x + TWO_63) % (2 * TWO_63) - TWO_63
  }

  // ---------------------------------------------------- effective policies

  datatype Config = Config(protocol: string, frameCodec: string, payloadCodec: string, maxFrameBytes: int, maxMessageBytes: int) {
    predicate Valid() {
      IsInt64(maxFrameBytes) && IsInt64(maxMessageBytes)
    }
  }

  datatype Peer = Peer(protocol: string, frameCodec: string, payloadCodec: string, maxFrameBytes: int, maxMessageBytes: int)

  function NormalProtocol(protocol: string): string {
    if TrimSpace(protocol) == "" then DEFAULT_PROTOCOL else TrimSpace(protocol)
  }

  function NormalFrameCodec(codec: string): string {
    if ToLower(TrimSpace(codec)) == "binary" then "binary" else "json"
  }

  function NormalPayloadCodec(codec: string): string {
    if ToLower(TrimSpace(codec)) == "gzip" then "gzip" else "identity"
  }

  function EffectiveMaxFrame(cfg: Config): int {
    if cfg.maxFrameBytes <= 0 then DEFAULT_MAX_FRAME_BYTES else cfg.maxFrameBytes
  }

  function EffectiveMaxMessage(cfg: Config): int {
    if cfg.maxMessageBytes <= 0 then Wrap64(EffectiveMaxFrame(cfg) * 16) else cfg.maxMessageBytes
  }

  /** `effectiveExperimentalMuxCandidatePolicy`. */
  function EffectivePolicy(cfg: Config): Peer {
    Peer(NormalProtocol(cfg.protocol), NormalFrameCodec(cfg.frameCodec), NormalPayloadCodec(cfg.payloadCodec),
         EffectiveMaxFrame(cfg), EffectiveMaxMessage(cfg))
  }

  predicate IsFrameCodec(codec: string) {
    codec == "binary" || codec == "json"
  }

  predicate IsPayloadCodec(codec: string) {
    codec == "gzip" || codec == "identity"
  }

  /** A policy that some configuration has. */
  ghost predicate IsPolicy(p: Peer) {
    && p.protocol != "" && IsFrameCodec(p.frameCodec) && IsPayloadCodec(p.payloadCodec)
    && IsInt64(p.maxFrameBytes) && IsInt64(p.maxMessageBytes) && p.maxFrameBytes > 0
    && (p.maxMessageBytes <= 0 ==> p.maxMessageBytes == Wrap64(p.maxFrameBytes * 16))
  }

  lemma EffectiveIsPolicy(cfg: Config)
    requires cfg.Valid()
    ensures IsPolicy(EffectivePolicy(cfg))
  {
  }

  /** No white space anywhere in the string. */
  ghost predicate IsWord(s: string) {
    forall i :: 0 <= i < |s| ==> !IsSpace(s[i])
  }

  // ---------------------------------------------------------------- printing

  function DecimalInt(n: int): string {
    if n < 0 then "-" + Decimal(-n) else Decimal(n)
  }

  function Entry(key: string, value: string): string {
    key + ("=" + value)
  }

  function Entries(p: Peer): seq<string> {
    [p.protocol, Entry("frame", p.frameCodec), Entry("payload", p.payloadCodec),
     Entry("maxFrame", DecimalInt(p.maxFrameBytes)), Entry("maxMessage", DecimalInt(p.maxMessageBytes))]
  }

  /** `formatExperimentalMuxCandidatePreface`. */
  function Format(p: Peer): string {
    PREFIX + Join(Entries(p), ' ') + "\n"
  }

  // ----------------------------------------------------------------- parsing

  datatype Failure = PrefaceClosed | PrefaceTooLarge | PrefaceMismatch | MissingProtocol | BadNumber | ProtocolMismatch | PolicyMismatch

  /** `strings.Fields`. */
  function Fields(s: string): (fields: seq<string>)
    ensures s != "" && !IsSpace(s[0]) ==> fields != []
  {
    if s == "" then []
    else
      var rest := Fields(s[1..]);
      if IsSpace(s[0]) then rest
      else if |s| == 1 || IsSpace(s[1]) then [[s[0]]] + rest
      else [[s[0]] + rest[0]] + rest[1..]
  }

  /** `strings.Cut` at an equals sign. */
  function Cut(s: string): Option<(string, string)> {
    if s == "" then None
    else if s[0] == '=' then Some(("", s[1..]))
    else
      var rest := Cut(s[1..]);
      if rest.None? then None else Some(([s[0]] + rest.value.0, rest.value.1))
  }

  /** How many digits a string starts with. */
  function DigitRun(s: string): (n: nat)
    ensures n <= |s|
  {
    if s == "" || !IsDigit(s[0]) then 0 else 1 + DigitRun(s[1..])
  }

  function DecimalValue(digits: string): int {
    if digits == "" then 0 else 10 * DecimalValue(digits[..|digits| - 1]) + (digits[|digits| - 1] as int - '0' as int)
  }

  predicate HasSign(s: string) {
    s != "" && (s[0] == '-' || s[0] == '+')
  }

  /** `fmt.Sscan` into an int64: a sign and decimal digits, with anything after them left unread. Numbers with a base
      prefix, a leading zero or an underscore are whatever `other` makes of them. */
  function ScanInt(s: string, other: string -> Option<int>): Option<int> {
    var digits := if HasSign(s) then s[1..] else s;
    var n := DigitRun(digits);
    if n == 0 then None
    else if (digits[0] == '0' && |digits| > 1) || (n < |digits| && digits[n] == '_') then other(s)
    else
      var value := if HasSign(s) && s[0] == '-' then -DecimalValue(digits[..n]) else DecimalValue(digits[..n]);
      if IsInt64(value) then Some(value) else None
  }

  function WithMaxFrame(peer: Peer, n: Option<int>): Result<Peer, Failure> {
    if n.None? then Err(BadNumber) else Ok(peer.(maxFrameBytes := n.value))
  }

  function WithMaxMessage(peer: Peer, n: Option<int>): Result<Peer, Failure> {
    if n.None? then Err(BadNumber) else Ok(peer.(maxMessageBytes := n.value))
  }

  function WithKey(peer: Peer, key: string, value: string, other: string -> Option<int>): Result<Peer, Failure> {
    if key == "frame" then Ok(peer.(frameCodec := value))
    else if key == "payload" then Ok(peer.(payloadCodec := value))
    else if key == "maxFrame" then WithMaxFrame(peer, ScanInt(value, other))
    else if key == "maxMessage" then WithMaxMessage(peer, ScanInt(value, other))
    else Ok(peer)
  }

  function WithField(peer: Peer, field: string, other: string -> Option<int>): Result<Peer, Failure> {
    var cut := Cut(field);
    if cut.None? then Ok(peer) else WithKey(peer, cut.value.0, cut.value.1, other)
  }

  function WithFields(peer: Peer, fields: seq<string>, other: string -> Option<int>): Result<Peer, Failure>
    decreases fields
  {
    if fields == [] then Ok(peer)
    else
      var next := WithField(peer, fields[0], other);
      if next.Err? then next else WithFields(next.value, fields[1..], other)
  }

  function Parsed(line: string, other: string -> Option<int>): Result<Peer, Failure> {
    var fields := Fields(line);
    if fields == [] then Err(MissingProtocol) else WithFields(Peer(fields[0], "", "", 0, 0), fields[1..], other)
  }

  /** `parseExperimentalMuxCandidatePreface`. */
  method Parse(line: string, other: string -> Option<int>) returns (r: Result<Peer, Failure>)
    ensures r == Parsed(line, other)
  {
    var fields := Fields(line);
    if |fields| == 0 {
      return Err(MissingProtocol);
    }
    var peer := Peer(fields[0], "", "", 0, 0);
    var i := 1;
    while i < |fields|
      invariant 1 <= i <= |fields|
      invariant WithFields(peer, fields[i..], other) == Parsed(line, other)
    {
      var next := WithField(peer, fields[i], other);
      if next.Err? {
        return next;
      }
      peer := next.value;
      i := i + 1;
    }
    r := Ok(peer);
  }

  // ------------------------------------------------------ numbers read back

  ghost predicate AllDigits(s: string) {
    forall i :: 0 <= i < |s| ==> IsDigit(s[i])
  }

  lemma {:induction false} DecimalReadsBack(n: nat)
    ensures Decimal(n) != "" && AllDigits(Decimal(n)) && DecimalValue(Decimal(n)) == n
    ensures Decimal(n)[0] == '0' ==> n == 0 && |Decimal(n)| == 1
  {
    var last := [('0' as int + n % 10) as char];
    if n < 10 {
      assert DecimalValue(Decimal(n)[..0]) == 0;
    } else {
      DecimalReadsBack(n / 10);
      assert (Decimal(n / 10) + last)[..|Decimal(n)| - 1] == Decimal(n / 10);
    }
  }

  lemma {:induction false} DigitRunAll(s: string)
    requires AllDigits(s)
    ensures DigitRun(s) == |s|
  {
    if s != "" {
      DigitRunAll(s[1..]);
    }
  }

  lemma ScanReadsBack(n: int, other: string -> Option<int>)
    requires IsInt64(n)
    ensures ScanInt(DecimalInt(n), other) == Some(n)
  {
    var magnitude := if n < 0 then -n else n;
    var digits := Decimal(magnitude);
    DecimalReadsBack(magnitude);
    DigitRunAll(digits);
    assert digits[..|digits|] == digits;
    assert n < 0 ==> ("-" + digits)[1..] == digits;
  }

  lemma DecimalIntIsWord(n: int)
    ensures IsWord(DecimalInt(n))
  {
    DecimalReadsBack(if n < 0 then -n else n);
  }

  // -------------------------------------------------------- lines read back

  lemma {:induction false} FieldsOfWord(word: string)
    requires word != "" && IsWord(word)
    ensures Fields(word) == [word]
  {
    if |word| > 1 {
      FieldsOfWord(word[1..]);
      assert [word[0]] + word[1..] == word;
    } else {
      assert word == [word[0]];
    }
  }

  lemma {:induction false} FieldsOfWordThen(word: string, rest: string)
    requires word != "" && IsWord(word) && rest != "" && IsSpace(rest[0])
    ensures Fields(word + rest) == [word] + Fields(rest)
  {
    var whole := word + rest;
    if |word| > 1 {
      FieldsOfWordThen(word[1..], rest);
      assert whole[1..] == word[1..] + rest;
      assert [word[0]] + word[1..] == word;
    } else {
      assert whole[1..] == rest && word == [word[0]];
    }
  }

  lemma {:induction false} FieldsAreWords(s: string)
    ensures forall i :: 0 <= i < |Fields(s)| ==> IsWord(Fields(s)[i])
  {
    if s != "" {
      FieldsAreWords(s[1..]);
      var rest := Fields(s[1..]);
      if !IsSpace(s[0]) && |s| > 1 && !IsSpace(s[1]) {
        assert IsWord(rest[0]);
      }
    }
  }

  lemma {:induction false} CutReadsBack(key: string, value: string)
    requires '=' !in key
    ensures Cut(key + ("=" + value)) == Some((key, value))
  {
    var whole := key + ("=" + value);
    if key == "" {
      assert whole == "=" + value;
    } else {
      CutReadsBack(key[1..], value);
      assert whole[1..] == key[1..] + ("=" + value);
      assert [key[0]] + key[1..] == key;
    }
  }

  lemma {:induction false} FieldsOfJoin(words: seq<string>)
    requires forall i :: 0 <= i < |words| ==> words[i] != "" && IsWord(words[i])
    ensures Fields(Join(words, ' ')) == words
  {
    if |words| == 1 {
      FieldsOfWord(words[0]);
    } else if |words| > 1 {
      var rest := Join(words[1..], ' ');
      FieldsOfJoin(words[1..]);
      assert words[0] + [' '] + rest == words[0] + ([' '] + rest);
      FieldsOfWordThen(words[0], [' '] + rest);
      assert ([' '] + rest)[1..] == rest;
    }
  }

  lemma FieldReadsBack(peer: Peer, key: string, value: string, other: string -> Option<int>)
    requires '=' !in key
    ensures WithField(peer, Entry(key, value), other) == WithKey(peer, key, value, other)
  {
    CutReadsBack(key, value);
  }

  lemma FieldsStep(peer: Peer, first: string, next: Peer, rest: seq<string>, other: string -> Option<int>)
    requires WithField(peer, first, other) == Ok(next)
    ensures WithFields(peer, [first] + rest, other) == WithFields(next, rest, other)
  {
    assert ([first] + rest)[1..] == rest;
  }

  lemma EntriesAreWords(p: Peer)
    requires IsPolicy(p) && IsWord(p.protocol)
    ensures forall i :: 0 <= i < |Entries(p)| ==> Entries(p)[i] != "" && IsWord(Entries(p)[i])
  {
    DecimalIntIsWord(p.maxFrameBytes);
    DecimalIntIsWord(p.maxMessageBytes);
  }

  lemma EntriesReadBack(p: Peer, other: string -> Option<int>)
    requires IsInt64(p.maxFrameBytes) && IsInt64(p.maxMessageBytes)
    ensures WithFields(Peer(p.protocol, "", "", 0, 0), Entries(p)[1..], other) == Ok(p)
  {
    var p0, e := Peer(p.protocol, "", "", 0, 0), Entries(p);
    var p1 := p0.(frameCodec := p.frameCodec);
    var p2 := p1.(payloadCodec := p.payloadCodec);
    var p3 := p2.(maxFrameBytes := p.maxFrameBytes);
    FieldReadsBack(p0, "frame", p.frameCodec, other);
    FieldReadsBack(p1, "payload", p.payloadCodec, other);
    FieldReadsBack(p2, "maxFrame", DecimalInt(p.maxFrameBytes), other);
    FieldReadsBack(p3, "maxMessage", DecimalInt(p.maxMessageBytes), other);
    ScanReadsBack(p.maxFrameBytes, other);
    ScanReadsBack(p.maxMessageBytes, other);
    assert e[1..] == [e[1]] + ([e[2]] + ([e[3]] + ([e[4]] + [])));
    FieldsStep(p0, e[1], p1, [e[2]] + ([e[3]] + ([e[4]] + [])), other);
    FieldsStep(p1, e[2], p2, [e[3]] + ([e[4]] + []), other);
    FieldsStep(p2, e[3], p3, [e[4]] + [], other);
    FieldsStep(p3, e[4], p, [], other);
  }

  /** Parsing a printed policy gives the policy back when its protocol has no white space. */
  lemma LineReadsBack(p: Peer, other: string -> Option<int>)
    requires IsPolicy(p) && IsWord(p.protocol)
    ensures Parsed(Join(Entries(p), ' '), other) == Ok(p)
  {
    EntriesAreWords(p);
    FieldsOfJoin(Entries(p));
    EntriesReadBack(p, other);
  }

  // ------------------------------------------------------ the preface line

  /** How many bytes come before the first newline, or before the end. */
  function LineLength(stream: string): (n: nat)
    ensures n <= |stream|
  {
    if stream == "" || stream[0] == '\n' then 0 else 1 + LineLength(stream[1..])
  }

  /** Reads one byte at a time up to a newline, giving up at the size limit: what was read, and what is left. */
  function ReadLine(stream: string): (Result<string, Failure>, string) {
    var n := LineLength(stream);
    if n < MAX_PREFACE_BYTES then
      if n < |stream| then (Ok(stream[..n]), stream[n + 1..]) else (Err(PrefaceClosed), "")
    else (Err(PrefaceTooLarge), stream[MAX_PREFACE_BYTES..])
  }

  function PeerOf(line: string, other: string -> Option<int>): Result<Peer, Failure> {
    if PREFIX <= line then Parsed(line[|PREFIX|..], other) else Err(PrefaceMismatch)
  }

  /** `readExperimentalMuxCandidatePreface`. */
  function ReadPeer(stream: string, other: string -> Option<int>): (Result<Peer, Failure>, string) {
    var line := ReadLine(stream);
    (if line.0.Err? then Err(line.0.error) else PeerOf(line.0.value, other), line.1)
  }

  lemma {:induction false} LineLengthAt(line: string, rest: string)
    requires '\n' !in line
    ensures LineLength(line + (['\n'] + rest)) == |line|
  {
    var stream := line + (['\n'] + rest);
    if line != "" {
      LineLengthAt(line[1..], rest);
      assert stream[1..] == line[1..] + (['\n'] + rest);
    }
  }

  lemma ReadsLine(line: string, rest: string)
    requires '\n' !in line && |line| < MAX_PREFACE_BYTES
    ensures ReadLine(line + (['\n'] + rest)) == (Ok(line), rest)
  {
    var stream := line + (['\n'] + rest);
    LineLengthAt(line, rest);
    assert stream[..|line|] == line && stream[|line| + 1..] == rest;
  }

  lemma {:induction false} JoinHasNoNewline(words: seq<string>)
    requires forall i :: 0 <= i < |words| ==> IsWord(words[i])
    ensures '\n' !in Join(words, ' ')
  {
    assert IsSpace('\n');
    if |words| > 1 {
      JoinHasNoNewline(words[1..]);
    }
  }

  /** Reading a printed preface returns exactly the policy, and leaves what follows the line in the stream. */
  lemma PrefaceReadsBack(p: Peer, rest: string, other: string -> Option<int>)
    requires IsPolicy(p) && IsWord(p.protocol) && |Format(p)| <= MAX_PREFACE_BYTES
    ensures ReadPeer(Format(p) + rest, other) == (Ok(p), rest)
  {
    var body := Join(Entries(p), ' ');
    EntriesAreWords(p);
    JoinHasNoNewline(Entries(p));
    LineReadsBack(p, other);
    FormatIsLine(p, body, rest);
    ReadsLine(PREFIX + body, rest);
  }

  lemma FormatIsLine(p: Peer, body: string, rest: string)
    requires body == Join(Entries(p), ' ')
    ensures Format(p) + rest == (PREFIX + body) + (['\n'] + rest)
    ensures '\n' !in body ==> '\n' !in PREFIX + body
  {
    assert "\n" == ['\n'];
    assert '\n' !in PREFIX;
  }

  lemma {:induction false} FieldsKeepProtocol(peer: Peer, fields: seq<string>, other: string -> Option<int>)
    ensures var r := WithFields(peer, fields, other); r.Ok? ==> r.value.protocol == peer.protocol
    decreases fields
  {
    if fields != [] {
      var next := WithField(peer, fields[0], other);
      if next.Ok? {
        FieldsKeepProtocol(next.value, fields[1..], other);
      }
    }
  }

  /** Whatever line is read, the protocol it names has no white space. */
  lemma PeerProtocolIsWord(stream: string, other: string -> Option<int>)
    ensures var r := ReadPeer(stream, other).0; r.Ok? ==> IsWord(r.value.protocol)
  {
    var line := ReadLine(stream).0;
    if line.Ok? && PREFIX <= line.value {
      var body := line.value[|PREFIX|..];
      var fields := Fields(body);
      FieldsAreWords(body);
      if fields != [] {
        FieldsKeepProtocol(Peer(fields[0], "", "", 0, 0), fields[1..], other);
      }
    }
  }

  /** The round trip holds exactly for protocols without white space. */
  lemma RoundTripExactly(cfg: Config, rest: string, other: string -> Option<int>)
    requires cfg.Valid() && |Format(EffectivePolicy(cfg))| <= MAX_PREFACE_BYTES
    ensures ReadPeer(Format(EffectivePolicy(cfg)) + rest, other).0 == Ok(EffectivePolicy(cfg)) <==>
            IsWord(NormalProtocol(cfg.protocol))
  {
    var p := EffectivePolicy(cfg);
    EffectiveIsPolicy(cfg);
    PeerProtocolIsWord(Format(p) + rest, other);
    if IsWord(p.protocol) {
      PrefaceReadsBack(p, rest, other);
    }
  }

  // -------------------------------------------------------------- agreement

  /** `validateExperimentalMuxCandidatePolicy`: what the peer leaves open is not checked. */
  predicate PolicyMatches(own: Peer, peer: Peer) {
    && (peer.frameCodec == "" || peer.frameCodec == own.frameCodec)
    && (peer.payloadCodec == "" || peer.payloadCodec == own.payloadCodec)
    && (peer.maxFrameBytes <= 0 || peer.maxFrameBytes == own.maxFrameBytes)
    && (peer.maxMessageBytes <= 0 || peer.maxMessageBytes == own.maxMessageBytes)
  }

  function Checked(own: Peer, peer: Result<Peer, Failure>): Result<Peer, Failure> {
    if peer.Err? then peer
    else if peer.value.protocol != own.protocol then Err(ProtocolMismatch)
    else if !PolicyMatches(own, peer.value) then Err(PolicyMismatch)
    else peer
  }

  /** A preface that one side sends and the other can read to its end. */
  ghost predicate Sendable(p: Peer) {
    IsPolicy(p) && |Format(p)| <= MAX_PREFACE_BYTES
  }

  /** One side of the exchange, for its own policy, on a connection with `stream` still to be read. */
  function Exchanged(own: Peer, stream: string, other: string -> Option<int>): Result<Peer, Failure> {
    if |Format(own)| > MAX_PREFACE_BYTES then Err(PrefaceTooLarge) else Checked(own, ReadPeer(stream, other).0)
  }

  /** One side's verdict on the other: the policies are equal, or they differ only in the message limit and the other
      side's limit overflowed to nothing. */
  lemma AcceptsExactly(own: Peer, peer: Peer, rest: string, other: string -> Option<int>)
    requires Sendable(own) && Sendable(peer) && IsWord(peer.protocol)
    ensures Exchanged(own, Format(peer) + rest, other).Ok? <==>
            own == peer || (peer.maxMessageBytes <= 0 && own == peer.(maxMessageBytes := own.maxMessageBytes))
    ensures Exchanged(own, Format(peer) + rest, other).Ok? ==> Exchanged(own, Format(peer) + rest, other) == Ok(peer)
  {
    PrefaceReadsBack(peer, rest, other);
  }

  /** Negotiation agreement: both sides accept exactly when their effective policies are equal. */
  lemma BothAcceptExactlyEqualPolicies(a: Peer, b: Peer, afterA: string, afterB: string, other: string -> Option<int>)
    requires Sendable(a) && Sendable(b) && IsWord(a.protocol) && IsWord(b.protocol)
    ensures Exchanged(a, Format(b) + afterB, other).Ok? && Exchanged(b, Format(a) + afterA, other).Ok? <==> a == b
  {
    AcceptsExactly(a, b, afterB, other);
    AcceptsExactly(b, a, afterA, other);
  }

  /** With a message limit that did not overflow, one side's verdict is equality already. */
  lemma AcceptsExactlyEqualPolicies(own: Peer, peer: Peer, rest: string, other: string -> Option<int>)
    requires Sendable(own) && Sendable(peer) && IsWord(peer.protocol) && peer.maxMessageBytes > 0
    ensures Exchanged(own, Format(peer) + rest, other).Ok? <==> own == peer
  {
    AcceptsExactly(own, peer, rest, other);
  }

  /** Frame limits below 2^59 do not overflow. */
  lemma SmallFramesDoNotOverflow(cfg: Config)
    requires cfg.Valid() && EffectiveMaxFrame(cfg) < 0x800_0000_0000_0000
    ensures EffectiveMaxMessage(cfg) > 0
    ensures cfg.maxMessageBytes <= 0 ==> EffectiveMaxMessage(cfg) == 16 * EffectiveMaxFrame(cfg)
  {
  }

  /** At 2^59 the limit overflows, and the verdicts of the two sides differ. */
  lemma OverflowIsOneSided(rest: string, other: string -> Option<int>) returns (a: Config, b: Config)
    ensures a.Valid() && b.Valid()
    ensures Exchanged(EffectivePolicy(a), Format(EffectivePolicy(b)) + rest, other).Ok?
    ensures Exchanged(EffectivePolicy(b), Format(EffectivePolicy(a)) + rest, other) == Err(PolicyMismatch)
  {
    var protocol := "m";
    a := Config(protocol, "", "", 0x800_0000_0000_0000, 1);
    b := Config(protocol, "", "", 0x800_0000_0000_0000, 0);
    ShortPolicy(a);
    ShortPolicy(b);
    OneLetterProtocol(protocol);
    AcceptsExactly(EffectivePolicy(a), EffectivePolicy(b), rest, other);
    PrefaceReadsBack(EffectivePolicy(a), rest, other);
  }

  lemma OneLetterProtocol(protocol: string)
    requires protocol == "m"
    ensures NormalProtocol(protocol) == protocol && IsWord(protocol)
  {
    TrimSpaceFixed(protocol);
  }

  lemma {:induction false} DecimalIsShort(n: nat, k: nat)
    requires n < Pow10(k) && k > 0
    ensures |Decimal(n)| <= k
    decreases k
  {
    if n >= 10 {
      DecimalIsShort(n / 10, k - 1);
    }
  }

  function Pow10(k: nat): nat {
    if k == 0 then 1 else 10 * Pow10(k - 1)
  }

  lemma ShortPolicy(cfg: Config)
    requires cfg.Valid() && cfg.protocol == "m"
    ensures Sendable(EffectivePolicy(cfg))
  {
    var p := EffectivePolicy(cfg);
    OneLetterProtocol(cfg.protocol);
    EffectiveIsPolicy(cfg);
    assert TWO_63 < Pow10(19) by { PowersOfTen(); }
    DecimalIsShort(if p.maxFrameBytes < 0 then -p.maxFrameBytes else p.maxFrameBytes, 19);
    DecimalIsShort(if p.maxMessageBytes < 0 then -p.maxMessageBytes else p.maxMessageBytes, 19);
    var e := Entries(p);
    assert |Join(e, ' ')| == |e[0]| + |e[1]| + |e[2]| + |e[3]| + |e[4]| + 4 by { JoinOfFive(e); }
  }

  lemma PowersOfTen()
    ensures Pow10(19) == 10_000_000_000_000_000_000
  {
    assert Pow10(4) == 10_000;
    assert Pow10(8) == 100_000_000;
    assert Pow10(12) == 1_000_000_000_000;
    assert Pow10(16) == 10_000_000_000_000_000;
  }

  lemma JoinOfFive(words: seq<string>)
    requires |words| == 5
    ensures |Join(words, ' ')| == |words[0]| + |words[1]| + |words[2]| + |words[3]| + |words[4]| + 4
  {
    var w := words[1..];
    assert |Join(w, ' ')| == |w[0]| + 1 + |Join(w[1..], ' ')|;
    var v := w[1..];
    assert |Join(v, ' ')| == |v[0]| + 1 + |Join(v[1..], ' ')|;
  }

  /** Nobody accepts a peer under a protocol with white space in its name. */
  lemma SpacedProtocolNeverAgrees(own: Peer, stream: string, other: string -> Option<int>)
    requires !IsWord(own.protocol)
    ensures Exchanged(own, stream, other).Err?
  {
    PeerProtocolIsWord(stream, other);
  }

  // --------------------------------------------------------- the connection

  class Conn {
    var stream: string
    var written: string

    constructor (stream: string)
      ensures this.stream == stream && written == ""
    {
      this.stream := stream;
      written := "";
    }

    /** The read loop: one byte at a time, up to a newline, the end, or the size limit. */
    method ReadLineBytes() returns (r: Result<string, Failure>)
      modifies this`stream
      ensures (r, stream) == ReadLine(old(stream))
    {
      var buf := "";
      ghost var all := stream;
      while |buf| < MAX_PREFACE_BYTES
        invariant |buf| <= MAX_PREFACE_BYTES && |buf| <= |all|
        invariant buf == all[..|buf|] && stream == all[|buf|..]
        invariant LineLength(all) == |buf| + LineLength(stream)
        decreases MAX_PREFACE_BYTES - |buf|
      {
        if stream == "" {
          return Err(PrefaceClosed);
        }
        var one := stream[0];
        stream := stream[1..];
        if one == '\n' {
          return Ok(buf);
        }
        buf := buf + [one];
      }
      r := Err(PrefaceTooLarge);
    }

    method ReadPreface(other: string -> Option<int>) returns (r: Result<Peer, Failure>)
      modifies this`stream
      ensures (r, stream) == ReadPeer(old(stream), other)
    {
      var line := ReadLineBytes();
      if line.Err? {
        return Err(line.error);
      }
      if !(PREFIX <= line.value) {
        return Err(PrefaceMismatch);
      }
      r := Parse(line.value[|PREFIX|..], other);
    }

    /** `exchangeExperimentalMuxCandidateProtocol` on a connection whose writes do not fail. */
    method Exchange(cfg: Config, other: string -> Option<int>) returns (r: Result<Peer, Failure>)
      modifies this
      ensures r == Exchanged(EffectivePolicy(cfg), old(stream), other)
      ensures var preface := Format(EffectivePolicy(cfg));
              written == if |preface| > MAX_PREFACE_BYTES then old(written) else old(written) + preface
    {
      var preface := Format(EffectivePolicy(cfg));
      if |preface| > MAX_PREFACE_BYTES {
        return Err(PrefaceTooLarge);
      }
      written := written + preface;
      r := ReadPreface(other);
      if r.Err? {
        return r;
      }
      if r.value.protocol != NormalProtocol(cfg.protocol) {
        return Err(ProtocolMismatch);
      }
      if !PolicyMatches(EffectivePolicy(cfg), r.value) {
        return Err(PolicyMismatch);
      }
    }
  }
}
