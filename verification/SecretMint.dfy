/** What becomes of a minted secret (cmd/gasworks/sp.go, cmd/gasworks/secretout.go): from the moment the
    mint plane's answer is in hand to the command's exit. */
module SecretMint {
  import opened Common
  import opened SecretOut

  // ---- rendering --------------------------------------------------------------------------------

  datatype Format = Env | Raw

  const QUOTE: Byte := 39
  const BACKSLASH: Byte := 92
  const NEWLINE: Byte := 10

  /** GASWORKS_SP_SECRET= */
  const ASSIGNMENT: Bytes := [71, 65, 83, 87, 79, 82, 75, 83, 95, 83, 80, 95, 83, 69, 67, 82, 69, 84, 61]

  /** Each quote closes the quoting, adds an escaped quote and opens it again. */
  function Escaped(s: Bytes): Bytes {
    if s == [] then []
    else (if s[0] == QUOTE then [QUOTE, BACKSLASH, QUOTE, QUOTE] else [s[0]]) + Escaped(s[1..])
  }

  function Render(f: Format, secret: Bytes): Bytes {
    match f
    case Raw => secret
    case Env => ASSIGNMENT + ([QUOTE] + (Escaped(secret) + [QUOTE, NEWLINE]))
  }

  /** The word a shell reads at s: single quotes take everything up to the next one literally, and
      outside them a backslash takes the next byte literally and a newline ends the word. */
  function Word(s: Bytes, quoted: bool): Option<Bytes>
    decreases |s|
  {
    if s == [] then (if quoted then None else Some([]))
    else if quoted then
      if s[0] == QUOTE then Word(s[1..], false) else Prefixed(s[0], Word(s[1..], true))
    else if s[0] == NEWLINE then Some([])
    else if s[0] == QUOTE then Word(s[1..], true)
    else if s[0] == BACKSLASH then (if |s| > 1 then Prefixed(s[1], Word(s[2..], false)) else None)
    else Prefixed(s[0], Word(s[1..], false))
  }

  function Prefixed(c: Byte, w: Option<Bytes>): Option<Bytes> { if w.None? then None else Some([c] + w.value) }

  lemma {:induction false} QuotedWord(secret: Bytes)
    ensures Word(Escaped(secret) + [QUOTE, NEWLINE], true) == Some(secret)
    decreases |secret|
  {
    var s := Escaped(secret) + [QUOTE, NEWLINE];
    if secret == [] {
      assert s == [QUOTE, NEWLINE] && s[1..] == [NEWLINE];
    } else {
      var rest := Escaped(secret[1..]) + [QUOTE, NEWLINE];
      QuotedWord(secret[1..]);
      assert [secret[0]] + secret[1..] == secret;
      if secret[0] == QUOTE {
        EscapedQuote(rest);
        assert s == [QUOTE, BACKSLASH, QUOTE, QUOTE] + rest;
      } else {
        assert s == [secret[0]] + rest && s[1..] == rest;
      }
    }
  }

  lemma EscapedQuote(rest: Bytes)
    ensures Word([QUOTE, BACKSLASH, QUOTE, QUOTE] + rest, true) == Prefixed(QUOTE, Word(rest, true))
  {
    var b := [QUOTE] + rest;
    var a := [BACKSLASH, QUOTE] + b;
    assert b[1..] == rest && Word(b, false) == Word(rest, true);
    assert a[2..] == b && Word(a, false) == Prefixed(QUOTE, Word(b, false));
    var s := [QUOTE, BACKSLASH, QUOTE, QUOTE] + rest;
    assert s[1..] == a && Word(s, true) == Word(a, false);
  }

  /** Sourcing the env rendering assigns the secret itself, whatever bytes it holds. */
  lemma SourcedIsSecret(secret: Bytes)
    ensures ASSIGNMENT <= Render(Env, secret)
    ensures Word(Render(Env, secret)[|ASSIGNMENT|..], false) == Some(secret)
  {
    QuotedWord(secret);
    var tail := [QUOTE] + (Escaped(secret) + [QUOTE, NEWLINE]);
    assert Render(Env, secret)[|ASSIGNMENT|..] == tail;
    assert tail[1..] == Escaped(secret) + [QUOTE, NEWLINE];
  }

  // ---- from the answer to the exit --------------------------------------------------------------

  const SPACE: Byte := 32
  const TAB: Byte := 9
  const DEL: Byte := 127

  /** The answer: its bytes, and what parsing them made of it; utf8 tells a secret that is valid UTF-8 and
      carries no replacement character. */
  datatype Redemption = Redemption(body: Bytes, parsed: bool, truncated: bool, secret: Bytes, utf8: bool)

  /** A shell and a header take the secret as it is: no control character in it. */
  predicate Usable(m: Redemption) {
    m.utf8 && forall i :: 0 <= i < |m.secret| ==> m.secret[i] >= SPACE && m.secret[i] != DEL
  }

  /** The answer cannot become the credential file asked for. */
  predicate MintProblem(m: Redemption) { !m.parsed || m.truncated || !Usable(m) }

  /** What a rescue saves: the rendering when there is one to make, the raw answer when there is not. */
  function RescueContent(m: Redemption, f: Format): Bytes { if MintProblem(m) then m.body else Render(f, m.secret) }

  datatype FallbackWorld = FallbackWorld(created: bool, private: bool, write: WriteResult, synced: bool)

  /** Where the last-resort print can go. */
  datatype PrintWorld = PrintWorld(stderrTakes: bool, stderrIsTerminal: bool, ttyOpens: bool, ttyIsTerminal: bool,
                                   ttyTakes: bool)

  /** What a terminal shows rather than obeys, a line at a time, and the reversible quoting of the rest. */
  datatype Screen = Screen(shows: Bytes -> bool, quote: Bytes -> Bytes, unquote: Bytes -> Bytes)

  datatype World = World(store: StoreWorld, sameFile: bool, cut: bool, rewrite: RewriteWorld, fallback: FallbackWorld,
                         screen: Screen, lastResort: PrintWorld)

  /** How the command ends: Saved is the only success. Rescued is in the fallback file; the last three
      went to the print: read on a terminal, taken by a stderr nobody can read back, or by nothing. */
  datatype Exit = Saved | Unrendered | Rescued | ShownOnTerminal | OnlyToStderr | Undelivered

  predicate IsPrint(e: Exit) { e.ShownOnTerminal? || e.OnlyToStderr? || e.Undelivered? }

  /** The one fallback file, new and owner-only: its path holds body, or nothing is claimed of it. */
  method WriteFallback(body: Bytes, x: FallbackWorld) returns (file: Option<Bytes>)
    ensures file.Some? ==> file.value == body
    ensures file.Some? <==> x.created && x.private && !x.write.Fails(body) && x.synced
  {
    if !x.created || !x.private || x.write.Fails(body) || !x.synced {
      return None;
    }
    return Some(x.write.Landed(body));
  }

  /** stderr first and always; then the terminal by name unless stderr is one. Only bytes on a terminal
      count as seen. */
  function Delivery(x: PrintWorld): Exit {
    if x.stderrTakes && x.stderrIsTerminal then ShownOnTerminal
    else if x.ttyOpens && x.ttyIsTerminal && x.ttyTakes then ShownOnTerminal
    else if x.stderrTakes then OnlyToStderr
    else Undelivered
  }

  // ---- the print of last resort -----------------------------------------------------------------

  function Trimmed(s: Bytes): (t: Bytes)
    ensures t <= s && (forall i :: |t| <= i < |s| ==> s[i] == NEWLINE)
    ensures t == [] || t[|t| - 1] != NEWLINE
  {
    if s == [] || s[|s| - 1] != NEWLINE then s else Trimmed(s[..|s| - 1])
  }

  /** Where the line starting at from ends. */
  function LineEnd(s: Bytes, from: nat): (end: nat)
    requires from <= |s|
    ensures from <= end <= |s| && (end == |s| || s[end] == NEWLINE)
    ensures forall k :: from <= k < end ==> s[k] != NEWLINE
    decreases |s| - from
  {
    if from == |s| || s[from] == NEWLINE then from else LineEnd(s, from + 1)
  }

  function Untabbed(s: Bytes): Bytes { seq(|s|, i requires 0 <= i < |s| => if s[i] == TAB then SPACE else s[i]) }

  /** Every line from there on is one a terminal shows. */
  predicate ShowsFrom(s: Bytes, from: nat, shows: Bytes -> bool)
    requires from <= |s|
    decreases |s| - from
  {
    var end := LineEnd(s, from);
    shows(Untabbed(s[from..end])) && (end == |s| || ShowsFrom(s, end + 1, shows))
  }

  /** That is: of every stretch between two line ends. */
  lemma {:induction false} ShowsEveryLine(s: Bytes, from: nat, shows: Bytes -> bool)
    requires from <= |s| && (from == 0 || s[from - 1] == NEWLINE)
    ensures ShowsFrom(s, from, shows) <==>
              forall a, b :: from <= a <= b <= |s| && IsLine(s, a, b) ==> shows(Untabbed(s[a..b]))
    decreases |s| - from
  {
    var end := LineEnd(s, from);
    if end < |s| {
      ShowsEveryLine(s, end + 1, shows);
    }
    assert IsLine(s, from, end);
    forall a, b | from <= a <= b <= |s| && IsLine(s, a, b) ensures (a == from && b == end) || (end < |s| && a > end) {
      assert a == from || s[a - 1] == NEWLINE;
    }
  }

  /** A line of s: from its start to the next newline, or to the end. */
  ghost predicate IsLine(s: Bytes, a: nat, b: nat)
    requires a <= b <= |s|
  {
    (a == 0 || s[a - 1] == NEWLINE) && (b == |s| || s[b] == NEWLINE) && forall k :: a <= k < b ==> s[k] != NEWLINE
  }

  /** What is printed in the block, and whether it is announced as escaped. */
  datatype Print = Print(text: Bytes, escaped: bool)

  /** recoverableBytes: as it arrived if a terminal shows every line of it, quoted otherwise. */
  method RecoverableBytes(raw: Bytes, screen: Screen) returns (p: Print)
    ensures p == if ShowsFrom(Trimmed(raw), 0, screen.shows) then Print(Trimmed(raw), false)
                 else Print(screen.quote(Trimmed(raw)), true)
  {
    var s := Trimmed(raw);
    var from := 0;
    while true
      invariant from <= |s|
      invariant ShowsFrom(s, 0, screen.shows) == ShowsFrom(s, from, screen.shows)
      decreases |s| - from
    {
      var end := LineEnd(s, from);
      if !screen.shows(Untabbed(s[from..end])) {
        return Print(screen.quote(s), true);
      }
      if end == |s| {
        return Print(s, false);
      }
      from := end + 1;
    }
  }

  /** The operator's side: undo the quoting if it was announced. */
  function Recovered(p: Print, screen: Screen): Bytes { if p.escaped then screen.unquote(p.text) else p.text }

  ghost predicate Reversible(screen: Screen) { forall s :: screen.unquote(screen.quote(s)) == s }

  /** The printed form of what a rescue saves. */
  predicate PrintOf(p: Print, m: Redemption, f: Format, screen: Screen) {
    if MintProblem(m) then
      p == if ShowsFrom(Trimmed(m.body), 0, screen.shows) then Print(Trimmed(m.body), false)
           else Print(screen.quote(Trimmed(m.body)), true)
    else p == Print(Trimmed(Render(f, m.secret)), false)
  }

  /** Nothing that matters is lost in the print: what the operator recovers from it is the content but for
      newlines at its very end. A credential is there without doubt: put the one newline back and it is the
      rendering, and sourced as it stands it assigns the secret. */
  lemma PrintRecovers(p: Print, m: Redemption, f: Format, screen: Screen)
    requires PrintOf(p, m, f, screen) && Reversible(screen)
    ensures Recovered(p, screen) == Trimmed(RescueContent(m, f))
    ensures !MintProblem(m) ==> RescueContent(m, f) == p.text + (if f == Env then [NEWLINE] else [])
    ensures !MintProblem(m) && f == Env ==>
              ASSIGNMENT <= p.text && Word(p.text[|ASSIGNMENT|..], false) == Some(m.secret)
  {
    if !MintProblem(m) {
      if f == Env {
        var kept := ASSIGNMENT + ([QUOTE] + (Escaped(m.secret) + [QUOTE]));
        assert Render(Env, m.secret) == kept + [NEWLINE];
        assert kept[|kept| - 1] == QUOTE;
        assert (kept + [NEWLINE])[..|kept|] == kept;
        assert Trimmed(kept + [NEWLINE]) == kept;
        QuotedAlone(m.secret);
        var tail := [QUOTE] + (Escaped(m.secret) + [QUOTE]);
        assert p.text[|ASSIGNMENT|..] == tail && tail[1..] == Escaped(m.secret) + [QUOTE];
      } else {
        assert Trimmed(m.secret) == m.secret;
      }
    }
  }

  /** The same word without the newline after it. */
  lemma {:induction false} QuotedAlone(secret: Bytes)
    ensures Word(Escaped(secret) + [QUOTE], true) == Some(secret)
    decreases |secret|
  {
    var s := Escaped(secret) + [QUOTE];
    if secret == [] {
      assert s == [QUOTE] && s[1..] == [];
    } else {
      var rest := Escaped(secret[1..]) + [QUOTE];
      QuotedAlone(secret[1..]);
      assert [secret[0]] + secret[1..] == secret;
      if secret[0] == QUOTE {
        EscapedQuote(rest);
        assert s == [QUOTE, BACKSLASH, QUOTE, QUOTE] + rest;
      } else {
        assert s == [secret[0]] + rest && s[1..] == rest;
      }
    }
  }

  method PrintOfLastResort(m: Redemption, f: Format, screen: Screen) returns (p: Print)
    ensures PrintOf(p, m, f, screen)
  {
    if MintProblem(m) {
      p := RecoverableBytes(m.body, screen);
    } else {
      p := Print(Trimmed(Render(f, m.secret)), false);
    }
  }

  /** The content, or its printed form, and where that went. */
  method Rescue(m: Redemption, f: Format, x: World)
    returns (exit: Exit, fallback: Option<Bytes>, printed: Option<Print>)
    ensures exit == Rescued || IsPrint(exit)
    ensures exit == Rescued ==> fallback == Some(RescueContent(m, f))
    ensures IsPrint(exit) ==> printed.Some? && PrintOf(printed.value, m, f, x.screen) && exit == Delivery(x.lastResort)
    ensures
      var p := x.lastResort;
      var seen := (p.stderrTakes && p.stderrIsTerminal) || (p.ttyOpens && p.ttyIsTerminal && p.ttyTakes);
      IsPrint(exit) ==> (exit == ShownOnTerminal <==> seen) && (exit == Undelivered <==> !seen && !p.stderrTakes)
  {
    fallback := WriteFallback(RescueContent(m, f), x.fallback);
    if fallback.Some? {
      return Rescued, fallback, None;
    }
    var p := PrintOfLastResort(m, f, x.screen);
    return Delivery(x.lastResort), None, Some(p);
  }

  /** The reservation holds the answer, or can be made to. */
  predicate HasRoom(reserved: nat, m: Redemption, x: World) {
    Reserves(|m.body|, reserved, x.store.reserve, x.store.reserveSynced)
  }

  /** Every step of replacing the response with body works. */
  predicate Rewrites(reserved: nat, body: Bytes, x: RewriteWorld) {
    Reserves(|body|, reserved, x.reserve, x.reserveSynced) && !x.write.Fails(body) && x.synced && x.truncated
  }

  /** The reserved file's part: rendered, left as the answer, or an error for the rescue. */
  method RenderMinted(file: SecretFile, m: Redemption, f: Format, stored: bool, x: World) returns (exit: Option<Exit>)
    requires file.Valid() && !file.removed
    requires stored ==> !file.armed && file.saved == Some(m.body) && m.body <= file.content && |m.body| <= file.reserved
    modifies file`content, file`reserved, file`written
    ensures file.Valid()
    ensures exit == Some(Saved) ==> x.sameFile && !MintProblem(m) && file.content == Render(f, m.secret)
    ensures exit == Some(Unrendered) ==> x.sameFile && m.body <= file.content
    ensures exit.Some? ==> stored && (exit.value == Saved || exit.value == Unrendered)
    ensures exit == Some(Saved) <==>
              stored && x.sameFile && !MintProblem(m) && Rewrites(old(file.reserved), Render(f, m.secret), x.rewrite)
  {
    if !stored || !x.sameFile {
      return None;
    }
    if MintProblem(m) {
      file.KeepResponse(x.cut);
      return Some(Unrendered);
    }
    var r := file.Rewrite(Render(f, m.secret), x.rewrite);
    match r {
      case Rendered => return Some(Saved);
      case ResponseKept => return Some(Unrendered);
      case ResponseLost => return None;
      case Trailing => return None;
    }
  }

  /** No silent loss: from any reservation, whatever fails, the answer's bytes or their rendering end in
      the reserved file, in the fallback file, or with the last-resort print; and the command succeeds only
      when that file holds exactly the rendering. The file is still one to throw away afterwards only when
      there was no room for the answer, and then nothing of a secret is in it. */
  method FinishMint(file: SecretFile, m: Redemption, f: Format, x: World)
    returns (exit: Exit, fallback: Option<Bytes>, printed: Option<Print>)
    requires file.Valid() && !file.removed
    modifies file
    ensures file.Valid() && !file.removed
    ensures exit == Saved ==> x.sameFile && !MintProblem(m) && file.content == Render(f, m.secret)
    ensures exit == Saved ==> m.parsed && !m.truncated && m.utf8
    ensures exit == Saved ==> forall i :: 0 <= i < |m.secret| ==> m.secret[i] >= 32 && m.secret[i] != 127
    ensures exit == Saved && f == Raw ==> file.content == m.secret
    ensures exit == Saved && f == Env ==>
              ASSIGNMENT <= file.content && Word(file.content[|ASSIGNMENT|..], false) == Some(m.secret)
    ensures exit == Unrendered ==> x.sameFile && m.body <= file.content
    ensures exit == Rescued ==> fallback == Some(RescueContent(m, f))
    ensures IsPrint(exit) ==> printed.Some? && PrintOf(printed.value, m, f, x.screen) && exit == Delivery(x.lastResort)
    ensures file.armed == (old(file.armed) && !HasRoom(old(file.reserved), m, x))
    ensures exit == Saved || exit == Unrendered ==> HasRoom(old(file.reserved), m, x)
    ensures (&& x.sameFile && m.parsed && !m.truncated && m.utf8
             && (forall i :: 0 <= i < |m.secret| ==> m.secret[i] >= 32 && m.secret[i] != 127)
             && HasRoom(old(file.reserved), m, x)
             && x.store.readable && !x.store.write.Fails(m.body)
             && Rewrites(Max(old(file.reserved), |m.body|), Render(f, m.secret), x.rewrite))
            ==> exit == Saved
  {
    SourcedIsSecret(m.secret);
    var stored := file.Persist(m.body, x.store);
    var settled := RenderMinted(file, m, f, stored, x);
    if settled.Some? {
      return settled.value, None, None;
    }
    exit, fallback, printed := Rescue(m, f, x);
  }
}
