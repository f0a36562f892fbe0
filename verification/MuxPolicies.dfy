/** What a configuration and a preface say (rpc/mux_candidate.go): the effective policy value by value, the preface as text,
    and which prefaces of any peer, complete or not, a side accepts. */
module MuxPolicies {
  import opened GoStrings
  import opened MuxCandidate

  // ---------------------------------------------------- effective policies

  /** The same word but for the case of its letters. */
  ghost predicate SameWord(a: string, b: string) {
    && |a| == |b|
    && forall i :: 0 <= i < |a| ==>
         || a[i] == b[i]
         || ('A' <= a[i] <= 'Z' && b[i] as int == a[i] as int + 32)
         || ('A' <= b[i] <= 'Z' && a[i] as int == b[i] as int + 32)
  }

  lemma LowerIsItself(word: string)
    requires forall i :: 0 <= i < |word| ==> !('A' <= word[i] <= 'Z')
    ensures ToLower(word) == word
  {
  }

  lemma CodecIs(codec: string, word: string)
    requires forall i :: 0 <= i < |word| ==> !('A' <= word[i] <= 'Z')
    ensures ToLower(TrimSpace(codec)) == word <==> SameWord(TrimSpace(codec), word)
  {
    LowerIsItself(word);
    LowerFormsAgree(TrimSpace(codec), word);
  }

  /** What each setting of a configuration comes to: a blank protocol is the default one and any other is trimmed; the codecs
      are the two that are known, whatever their case, else the defaults; limits that are not positive are 4 MiB, and sixteen
      times the frame limit as 64 bits hold it. */
  lemma EffectivePolicyIs(cfg: Config)
    ensures var p := EffectivePolicy(cfg);
            && p.protocol == (if AllSpace(cfg.protocol) then DEFAULT_PROTOCOL else TrimSpace(cfg.protocol))
            && p.frameCodec == (if SameWord(TrimSpace(cfg.frameCodec), "binary") then "binary" else "json")
            && p.payloadCodec == (if SameWord(TrimSpace(cfg.payloadCodec), "gzip") then "gzip" else "identity")
            && p.maxFrameBytes == (if cfg.maxFrameBytes > 0 then cfg.maxFrameBytes else 4 * 1024 * 1024)
            && (cfg.maxMessageBytes > 0 ==> p.maxMessageBytes == cfg.maxMessageBytes)
            && (cfg.maxMessageBytes <= 0 ==>
                  && (p.maxMessageBytes - 16 * p.maxFrameBytes) % 0x1_0000_0000_0000_0000 == 0
                  && IsInt64(p.maxMessageBytes))
  {
    TrimSpaceEmpty(cfg.protocol);
    CodecIs(cfg.frameCodec, "binary");
    CodecIs(cfg.payloadCodec, "gzip");
  }

  // ------------------------------------------------------- the preface as text

  lemma JoinStep(word: string, rest: seq<string>)
    requires rest != []
    ensures Join([word] + rest, ' ') == word + ([' '] + Join(rest, ' '))
  {
    assert ([word] + rest)[1..] == rest;
  }

  lemma EntryStep(key: string, text: string, value: string, more: string)
    requires text == [' '] + key + ['=']
    ensures [' '] + (Entry(key, value) + more) == text + (value + more)
  {
    assert "=" == ['='];
  }

  lemma EntriesAsText(a: string, b: string, c: string, d: string, e: string)
    ensures Join([a, b, c, d, e], ' ') == a + ([' '] + (b + ([' '] + (c + ([' '] + (d + ([' '] + (e + ""))))))))
  {
    JoinStep(d, [e]);
    JoinStep(c, [d, e]);
    JoinStep(b, [c, d, e]);
    JoinStep(a, [b, c, d, e]);
    assert [d] + [e] == [d, e] && [c] + [d, e] == [c, d, e] && [b] + [c, d, e] == [b, c, d, e];
    assert [a] + [b, c, d, e] == [a, b, c, d, e];
    assert e + "" == e;
  }

  /** The preface of a policy, written out. */
  lemma PrefaceIsText(p: Peer)
    ensures Format(p) ==
            "GOFLY-MUX/1 " + (p.protocol + (" frame=" + (p.frameCodec + (" payload=" + (p.payloadCodec
            + (" maxFrame=" + (DecimalInt(p.maxFrameBytes) + (" maxMessage=" + (DecimalInt(p.maxMessageBytes) + ""))))))))) + "\n"
  {
    var frame, message := DecimalInt(p.maxFrameBytes), DecimalInt(p.maxMessageBytes);
    var e := Entries(p);
    EntriesAsText(e[0], e[1], e[2], e[3], e[4]);
    EntryStep("maxMessage", " maxMessage=", message, "");
    var m := " maxMessage=" + (message + "");
    EntryStep("maxFrame", " maxFrame=", frame, m);
    var f := " maxFrame=" + (frame + m);
    EntryStep("payload", " payload=", p.payloadCodec, f);
    EntryStep("frame", " frame=", p.frameCodec, " payload=" + (p.payloadCodec + f));
  }

  // --------------------------------------------------- what a preface says

  /** The value of the last field that is an entry for the key. */
  ghost function LastEntry(fields: seq<string>, key: string): Option<string> {
    if fields == [] then None
    else
      var last := Cut(fields[|fields| - 1]);
      if last.Some? && last.value.0 == key then Some(last.value.1) else LastEntry(fields[..|fields| - 1], key)
  }

  /** Every limit in the fields is a number. */
  ghost predicate NumbersScan(fields: seq<string>, other: string -> Option<int>) {
    forall i :: 0 <= i < |fields| ==> NumberScans(fields[i], other)
  }

  ghost predicate NumberScans(field: string, other: string -> Option<int>) {
    var cut := Cut(field);
    cut.Some? && (cut.value.0 == "maxFrame" || cut.value.0 == "maxMessage") ==> ScanInt(cut.value.1, other).Some?
  }

  ghost function TextOf(entry: Option<string>, before: string): string {
    if entry.Some? then entry.value else before
  }

  ghost function NumberOf(entry: Option<string>, before: int, other: string -> Option<int>): int {
    if entry.Some? && ScanInt(entry.value, other).Some? then ScanInt(entry.value, other).value else before
  }

  ghost function SaidBy(peer: Peer, fields: seq<string>, other: string -> Option<int>): Peer {
    Peer(peer.protocol, TextOf(LastEntry(fields, "frame"), peer.frameCodec), TextOf(LastEntry(fields, "payload"), peer.payloadCodec),
         NumberOf(LastEntry(fields, "maxFrame"), peer.maxFrameBytes, other),
         NumberOf(LastEntry(fields, "maxMessage"), peer.maxMessageBytes, other))
  }

  lemma {:induction false} WithFieldsSnoc(peer: Peer, fields: seq<string>, last: string, other: string -> Option<int>)
    ensures WithFields(peer, fields + [last], other) ==
            var init := WithFields(peer, fields, other); if init.Err? then init else WithField(init.value, last, other)
    decreases |fields|
  {
    assert fields != [] ==> (fields + [last])[1..] == fields[1..] + [last];
    if fields != [] {
      var next := WithField(peer, fields[0], other);
      if next.Ok? {
        WithFieldsSnoc(next.value, fields[1..], last, other);
      }
    } else {
      assert ([] + [last])[1..] == [];
      assert [] + [last] == [last];
    }
  }

  lemma SaidSnoc(peer: Peer, fields: seq<string>, last: string, other: string -> Option<int>)
    requires NumberScans(last, other)
    ensures WithField(SaidBy(peer, fields, other), last, other) == Ok(SaidBy(peer, fields + [last], other))
  {
    assert (fields + [last])[..|fields|] == fields;
    var cut := Cut(last);
    if cut.Some? {
      assert forall key :: LastEntry(fields + [last], key) == if cut.value.0 == key then Some(cut.value.1) else LastEntry(fields, key);
    } else {
      assert forall key :: LastEntry(fields + [last], key) == LastEntry(fields, key);
    }
  }

  /** A line says, for each key, what its last entry says; other fields are passed over, and a limit that is no number spoils
      the line. */
  lemma {:induction false} FieldsSay(peer: Peer, fields: seq<string>, other: string -> Option<int>)
    ensures WithFields(peer, fields, other) == if NumbersScan(fields, other) then Ok(SaidBy(peer, fields, other)) else Err(BadNumber)
    decreases |fields|
  {
    if fields != [] {
      var n := |fields| - 1;
      assert fields == fields[..n] + [fields[n]];
      FieldsSay(peer, fields[..n], other);
      WithFieldsSnoc(peer, fields[..n], fields[n], other);
      if NumbersScan(fields[..n], other) && NumberScans(fields[n], other) {
        SaidSnoc(peer, fields[..n], fields[n], other);
        assert NumbersScan(fields, other);
      }
    }
  }

  /** The peer's preface: the protocol and then any fields. */
  function Preface(protocol: string, fields: seq<string>): string {
    PREFIX + Join([protocol] + fields, ' ')
  }

  ghost predicate AgreesWith(own: Peer, fields: seq<string>, other: string -> Option<int>) {
    var said := SaidBy(Peer(own.protocol, "", "", 0, 0), fields, other);
    && said.frameCodec in {"", own.frameCodec} && said.payloadCodec in {"", own.payloadCodec}
    && (said.maxFrameBytes > 0 ==> said.maxFrameBytes == own.maxFrameBytes)
    && (said.maxMessageBytes > 0 ==> said.maxMessageBytes == own.maxMessageBytes)
  }

  /** One side accepts any peer's line exactly when it names the same protocol, its limits are numbers, and what it says of
      codecs and positive limits is what this side has; what the peer leaves out is not held against it. */
  lemma PrefaceIsAcceptedExactly(own: Peer, protocol: string, fields: seq<string>, rest: string, other: string -> Option<int>)
    requires protocol != "" && IsWord(protocol) && forall i :: 0 <= i < |fields| ==> fields[i] != "" && IsWord(fields[i])
    requires |Preface(protocol, fields)| < MAX_PREFACE_BYTES && |Format(own)| <= MAX_PREFACE_BYTES
    ensures Exchanged(own, Preface(protocol, fields) + (['\n'] + rest), other).Ok? <==>
            protocol == own.protocol && NumbersScan(fields, other) && AgreesWith(own, fields, other)
    ensures protocol != own.protocol && NumbersScan(fields, other) ==>
            Exchanged(own, Preface(protocol, fields) + (['\n'] + rest), other) == Err(ProtocolMismatch)
  {
    PrefaceIsRead(protocol, fields, rest, other);
  }

  /** Reading such a line gives what it says. */
  lemma PrefaceIsRead(protocol: string, fields: seq<string>, rest: string, other: string -> Option<int>)
    requires protocol != "" && IsWord(protocol) && forall i :: 0 <= i < |fields| ==> fields[i] != "" && IsWord(fields[i])
    requires |Preface(protocol, fields)| < MAX_PREFACE_BYTES
    ensures ReadPeer(Preface(protocol, fields) + (['\n'] + rest), other).0 ==
            if NumbersScan(fields, other) then Ok(SaidBy(Peer(protocol, "", "", 0, 0), fields, other)) else Err(BadNumber)
  {
    var words := [protocol] + fields;
    assert words[1..] == fields;
    forall i | 0 <= i < |words| ensures words[i] != "" && IsWord(words[i]) {
      if i > 0 {
        assert words[i] == fields[i - 1];
      }
    }
    FieldsOfJoin(words);
    JoinHasNoNewline(words);
    var line := Preface(protocol, fields);
    assert '\n' !in PREFIX;
    ReadsLine(line, rest);
    assert line[|PREFIX|..] == Join(words, ' ');
    FieldsSay(Peer(protocol, "", "", 0, 0), fields, other);
  }

  lemma {:induction false} LineEndsAtNewline(stream: string)
    ensures '\n' !in stream[..LineLength(stream)]
    ensures LineLength(stream) < |stream| ==> stream[LineLength(stream)] == '\n'
  {
    if stream != "" && stream[0] != '\n' {
      LineEndsAtNewline(stream[1..]);
      var n := LineLength(stream[1..]);
      assert stream[..n + 1] == [stream[0]] + stream[1..][..n];
    }
  }

  /** Reading gives up exactly when the stream ends before a newline, or when there is none among the first 512 bytes; a line
      without the prefix is refused. */
  lemma ReadingFailsExactly(own: Peer, stream: string, other: string -> Option<int>)
    requires |Format(own)| <= MAX_PREFACE_BYTES
    ensures Exchanged(own, stream, other) == Err(PrefaceClosed) <==> |stream| < 512 && '\n' !in stream
    ensures Exchanged(own, stream, other) == Err(PrefaceTooLarge) <==> |stream| >= 512 && '\n' !in stream[..512]
    ensures forall line, rest :: stream == line + (['\n'] + rest) && '\n' !in line && |line| < 512 && !(PREFIX <= line) ==>
              Exchanged(own, stream, other) == Err(PrefaceMismatch)
  {
    LineEndsAtNewline(stream);
    var n := LineLength(stream);
    if n < |stream| {
      assert stream[n] == '\n';
      if n < 512 <= |stream| {
        assert stream[..512][n] == '\n';
      }
    } else {
      assert stream[..n] == stream;
    }
    if 512 <= n {
      assert stream[..n][..512] == stream[..512];
    }
    if ReadLine(stream).0.Ok? {
      ParsingFailsOtherwise(stream, other);
    }
    forall line, rest | stream == line + (['\n'] + rest) && '\n' !in line && |line| < 512 && !(PREFIX <= line)
      ensures Exchanged(own, stream, other) == Err(PrefaceMismatch)
    {
      ReadsLine(line, rest);
    }
  }

  lemma ParsingFailsOtherwise(stream: string, other: string -> Option<int>)
    requires ReadLine(stream).0.Ok?
    ensures ReadPeer(stream, other).0.Err? ==> ReadPeer(stream, other).0.error != PrefaceClosed && ReadPeer(stream, other).0.error != PrefaceTooLarge
  {
    var line := ReadLine(stream).0.value;
    if PREFIX <= line {
      var fields := Fields(line[|PREFIX|..]);
      if fields != [] {
        FieldsSay(Peer(fields[0], "", "", 0, 0), fields[1..], other);
      }
    }
  }
}
