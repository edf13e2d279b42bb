/** When the parser throws: a header line whose colon stands directly before its carriage return. */
module HttpThrows {
  import opened CTypes
  import opened HttpRequests
  import opened HttpContexts
  import opened HttpGrammar
  import opened HttpRoundTrip
  import opened HttpSoundness

  ghost predicate HeaderKeyText(key: string) {
    key != "" && key[0] != CR && !IsBlank(key[0]) && forall i :: 0 < i < |key| ==> key[i] != ':'
  }

  /** The request line and the header lines of a message, then a key without even a blank behind its
      colon. The headers are copied from two characters behind the colon, which is past their end. */
  function BrokenText(m: Message, key: string): string {
    TargetText(m) + (m.protocol + "/" + m.version + "\r\n") + (HeadersText(m.headers) + (key + ":\r"))
  }

  ghost predicate Broken(text: string, m: Message, key: string) {
    Good(m) && HeaderKeyText(key) && At(text, 0, BrokenText(m, key))
  }

  lemma BrokenParts(text: string, m: Message, key: string)
    ensures At(text, 0, BrokenText(m, key)) <==>
            var p := |TargetText(m)|;
            var q := p + |m.protocol + "/" + m.version + "\r\n"|;
            var r := q + |HeadersText(m.headers)|;
            && At(text, 0, TargetText(m)) && At(text, p, m.protocol + "/" + m.version + "\r\n")
            && At(text, q, HeadersText(m.headers)) && At(text, r, key) && At(text, r + |key|, ":\r")
  {
    hide TargetText, HeadersText;
    var line := m.protocol + "/" + m.version + "\r\n";
    AtConcat(text, 0, TargetText(m) + line, HeadersText(m.headers) + (key + ":\r"));
    AtConcat(text, 0, TargetText(m), line);
    AtConcat(text, |TargetText(m) + line|, HeadersText(m.headers), key + ":\r");
    AtConcat(text, |TargetText(m) + line| + |HeadersText(m.headers)|, key, ":\r");
  }

  lemma AtColonCr(text: string, p: nat)
    ensures At(text, p, ":\r") <==> p + 2 <= |text| && text[p] == ':' && text[p + 1] == CR
  {
  }

  /** A colon directly before the carriage return. */
  lemma ThrowsThere(text: string, size: nat, c: Config, key: string)
    requires Ready(text, size, c) && c.state.CrLf? && c.start == c.end
    requires HeaderKeyText(key) && At(text, c.end, key)
    requires var p := c.end + |key|; p < size && text[p] == ':' && text[p + 1] == CR
    ensures Run(text, size, c).threw
  {
    hide Run, Step;
    ReadHeaderKey(text, size, c, key);
    var p := c.end + |key|;
    var c1 := Go(c.(end := p), HeaderValue).(colon := p);
    RunStep(text, size, c1);
    NothingBetween(text, size, c1);
    ThrownEnds(text, size, Throw(c1));
  }

  lemma NothingBetween(text: string, size: nat, c: Config)
    requires Ready(text, size, c) && c.state.HeaderValue? && c.end <= size && c.colon + 1 == c.end && text[c.end] == CR
    ensures Step(text, size, c) == Throw(c)
  {
  }

  lemma ThrownEnds(text: string, size: nat, c: Config)
    requires |text| == size + 1 && c.Ordered() && c.threw
    ensures Run(text, size, c) == c
  {
  }

  lemma BrokenThrows(text: string, size: nat, m: Message, key: string)
    requires |text| == size + 1 && Broken(text, m, key)
    ensures Run(text, size, Begin(Start, FRESH)).threw
  {
    hide Run, Step, TargetText, HeadersText, WithParams, WithHeaders, MethodOf, VersionOf, HeaderOk;
    BrokenParts(text, m, key);
    var colon := ReadTarget(text, size, m);
    ReadProtocolLine(text, size, m, colon);
    var c := Lined(m, colon);
    colon := ReadHeaderLines(text, size, c, m.headers);
    var q := c.end + |HeadersText(m.headers)|;
    AtColonCr(text, q + |key|);
    ThrowsThere(text, size, c.(start := q, end := q, colon := colon,
                               request := c.request.(headers := WithHeaders(c.request.headers, m.headers))), key);
  }

  /** Nothing throws from the end of the blank line on. */
  lemma {:induction false} QuietEnd(text: string, size: nat, c: Config)
    requires |text| == size + 1 && c.Ordered() && !c.threw
    requires c.state.CrLfCr? || c.state.Body? || c.state.Complete? || c.state.Invalid?
    ensures !Run(text, size, c).threw
    decreases size + 1 - c.end
  {
    hide AfterHeaders;
    if c.Live() && c.end <= size {
      QuietStep(text, size, c);
      hide Run, Step;
      RunStep(text, size, c);
      QuietEnd(text, size, Step(text, size, c));
    }
  }

  lemma QuietStep(text: string, size: nat, c: Config)
    requires |text| == size + 1 && c.Ordered() && c.Live() && c.end <= size && (c.state.CrLfCr? || c.state.Body?)
    ensures var d := Step(text, size, c);
            !d.threw && d.Ordered() && d.end == c.end + 1 && (d.state.Body? || d.state.Complete? || d.state.Invalid?)
  {
  }

  lemma BlankLineNeverThrows(text: string, size: nat, c: Config)
    requires Ready(text, size, c) && c.state.CrLf? && c.end <= size && text[c.end] == CR
    ensures !Run(text, size, c).threw
  {
    assert Step(text, size, c) == Go(c, CrLfCr);
    hide Run, Step;
    RunStep(text, size, c);
    QuietEnd(text, size, Go(c, CrLfCr));
  }

  /** There is a key, its colon, and a character behind it. */
  lemma FindBrokenKey(text: string, size: nat, c: Config) returns (key: string)
    requires Ready(text, size, c) && c.state.CrLf? && c.start == c.end && Run(text, size, c).threw
    ensures HeaderKeyText(key) && At(text, c.end, key)
    ensures var p := c.end + |key|; p < size && text[p] == ':'
  {
    hide Run, Step;
    var i := Leave(text, size, c);
    if text[c.end] == CR {
      BlankLineNeverThrows(text, size, c);
      assert false;
    }
    key := FindHeaderKey(text, size, c);
    ReadHeaderKey(text, size, c, key);
    var p := c.end + |key|;
    var e := Leave(text, size, Go(c.(end := p), HeaderValue).(colon := p));
  }

  /** The good header lines before the broken one. */
  lemma {:induction false} FindBroken(text: string, size: nat, c: Config) returns (hs: seq<HeaderLine>, key: string)
    requires Ready(text, size, c) && c.state.CrLf? && c.start == c.end && Run(text, size, c).threw
    ensures forall i :: 0 <= i < |hs| ==> HeaderOk(hs[i])
    ensures HeaderKeyText(key) && At(text, c.end, HeadersText(hs))
    ensures var r := c.end + |HeadersText(hs)|; At(text, r, key) && At(text, r + |key|, ":\r")
    decreases size + 1 - c.end
  {
    hide Run, Step, HeaderOk, HeaderText;
    key := FindBrokenKey(text, size, c);
    var p := c.end + |key|;
    AtColonCr(text, p);
    if text[p + 1] == CR {
      hs := [];
    } else {
      var h := TakeHeader(text, size, c, key);
      var rest;
      rest, key := FindBroken(text, size, Behind(c, h));
      hs := [h] + rest;
      assert hs[1..] == rest;
      AtConcat(text, c.end, HeaderText(h), HeadersText(rest));
    }
  }

  lemma FindBrokenHead(text: string, size: nat) returns (m: Message, key: string)
    requires |text| == size + 1 && Run(text, size, Begin(Start, FRESH)).threw
    ensures Broken(text, m, key)
  {
    hide Run, Step, TargetText, HeadersText, WithParams, VersionOf, MethodOf, HeaderOk;
    var t := FindTarget(text, size);
    var colon := ReadTarget(text, size, t);
    var protocol, version := FindProtocolLine(text, size, Targeted(t, colon));
    m := t.(protocol := protocol, version := version);
    SameTarget(t, m);
    ReadProtocolLine(text, size, m, colon);
    var hs;
    hs, key := FindBroken(text, size, Lined(m, colon));
    m := m.(headers := hs);
    SameTarget(t, m);
    BrokenParts(text, m, key);
  }

  /** A fresh parser throws if and only if a good request line and good header lines are followed by a
      header whose colon stands directly before the carriage return. */
  lemma ThrowsIff(data: string, past: char)
    ensures Run(data + [past], |data|, Begin(Start, FRESH)).threw <==> exists m, key :: Broken(data + [past], m, key)
  {
    hide Run, Broken;
    if Run(data + [past], |data|, Begin(Start, FRESH)).threw {
      var m, key := FindBrokenHead(data + [past], |data|);
    }
    if m, key :| Broken(data + [past], m, key) {
      BrokenThrows(data + [past], |data|, m, key);
    }
  }

  /** Unless it is a carriage return, the byte behind the input has no part in an exception. */
  lemma ThrowsWhateverFollows(data: string, past: char, other: char)
    requires past != CR && Run(data + [past], |data|, Begin(Start, FRESH)).threw
    ensures Run(data + [other], |data|, Begin(Start, FRESH)).threw
  {
    hide Run, BrokenText, Good;
    var m, key := FindBrokenHead(data + [past], |data|);
    BrokenEnds(m, key);
    var broken := BrokenText(m, key);
    AtFront(data, past, other, broken);
    BrokenThrows(data + [other], |data|, m, key);
  }

  lemma BrokenEnds(m: Message, key: string)
    ensures var b := BrokenText(m, key); |b| > 0 && b[|b| - 1] == CR
  {
    hide TargetText, HeadersText;
  }

  lemma AtFront(data: string, past: char, other: char, s: string)
    requires At(data + [past], 0, s) && s != "" && s[|s| - 1] != past
    ensures At(data + [other], 0, s)
  {
    var n := |s|;
    assert (data + [past])[..n][n - 1] == s[n - 1];
    assert n <= |data|;
    assert (data + [past])[..n] == data[..n] == (data + [other])[..n];
  }

  /** A byte behind the input that is no line end decides nothing at all: neither acceptance nor the
      request that was read nor an exception. */
  lemma OtherBytesDecideNothing(data: string, past: char, other: char)
    requires past != LF && past != CR && other != LF && other != CR
    ensures var x := Run(data + [past], |data|, Begin(Start, FRESH));
            var y := Run(data + [other], |data|, Begin(Start, FRESH));
            x.threw == y.threw
    ensures Accepts(data + [past], |data|, Begin(Start, FRESH)) <==> Accepts(data + [other], |data|, Begin(Start, FRESH))
    ensures Accepts(data + [past], |data|, Begin(Start, FRESH)) ==>
              Run(data + [past], |data|, Begin(Start, FRESH)).request == Run(data + [other], |data|, Begin(Start, FRESH)).request
  {
    hide Run, Accepts;
    if Run(data + [past], |data|, Begin(Start, FRESH)).threw {
      ThrowsWhateverFollows(data, past, other);
    }
    if Run(data + [other], |data|, Begin(Start, FRESH)).threw {
      ThrowsWhateverFollows(data, other, past);
    }
    if Accepts(data + [past], |data|, Begin(Start, FRESH)) {
      PastIsIrrelevant(data, past, other);
    }
    if Accepts(data + [other], |data|, Begin(Start, FRESH)) {
      PastIsIrrelevant(data, other, past);
    }
  }

  /** So no request of the grammar throws, and no request that throws is accepted. */
  lemma BrokenIsNotGood(m: Message, key: string, good: Message, rest: string)
    requires Good(m) && HeaderKeyText(key) && Good(good)
    ensures Printed(good) != BrokenText(m, key) + rest
  {
    hide Run, Meaning, TargetText, HeadersText, HeadText, Good;
    if Printed(good) == BrokenText(m, key) + rest {
      var text := Printed(good) + ['x'];
      assert text == BrokenText(m, key) + (rest + ['x']);
      AtConcat(text, 0, BrokenText(m, key), rest + ['x']);
      assert Broken(text, m, key);
      BrokenThrows(text, |Printed(good)|, m, key);
      RoundTrip(good, 'x');
      assert false;
    }
  }
}
