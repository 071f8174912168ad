/**
  A server connection (managesieveserver/conn.go), updated in place. Every
  method is proved to do to the connection what the function of the same name
  in ConnSpec does to its state.

  The only thing a connection observes besides the bytes is whether its reader
  has bytes buffered. `peeked` records what it found. It never consults
  env.buffered, so it behaves as specified for every environment that is like
  env but foresees exactly what was found.
 */
module Conn {
  import opened Text
  import opened Parser
  import opened LineReader
  import opened Protocol
  import opened ConnSpec
  import opened Serving
  import opened Looks

  /** A network connection: the segments that arrive, and how it ends. */
  datatype Network = Network(segments: seq<string>, end: End) {
    ghost predicate Valid() {
      forall i | 0 <= i < |segments| :: segments[i] != ""
    }

    ghost function Bytes(): Stream {
      Stream(Flatten(segments), end)
    }
  }

  class Conn {
    const env: Env
    const tls: Option<Network>
    const bufferSize: nat

    var authenticated: bool
    var isTLS: bool
    var errorCount: nat
    var closePending: bool
    var hijacked: bool
    var reader: Reader
    var output: seq<Item>
    var trace: seq<Event>
    var flushes: nat
    var looks: nat
    ghost var peeked: seq<bool>

    ghost predicate Valid()
      reads this, reader
    {
      && reader.Valid() && bufferSize > 0
      && match tls {
        case None => env.tls == None
        case Some(network) => network.Valid() && env.tls == Some(network.Bytes())
      }
    }

    /** The connection as a value. */
    ghost function St(): State
      reads this, reader
    {
      State(authenticated, isTLS, errorCount, closePending, hijacked, reader.View(), output, trace,
            Ticks(flushes, looks, |peeked|))
    }

    /** f is env but for its looks at the buffer, of which it foresees the answers so far. */
    ghost predicate Foresees(f: Env)
      reads this
    {
      Twins(env, f) && forall i: nat | i < |peeked| :: f.buffered(i) == peeked[i]
    }

    constructor (env: Env, network: Network, isTLS: bool, tls: Option<Network>, bufferSize: nat)
      requires network.Valid() && bufferSize > 0
      requires match tls { case None => env.tls == None case Some(n) => n.Valid() && env.tls == Some(n.Bytes()) }
      ensures Valid() && St() == Fresh(isTLS, network.Bytes()) && this.env == env && peeked == [] && fresh(reader)
    {
      this.env := env;
      this.tls := tls;
      this.bufferSize := bufferSize;
      this.isTLS := isTLS;
      authenticated, errorCount, closePending, hijacked := false, 0, false, false;
      output, trace, flushes, looks, peeked := [], [], 0, 0, [];
      reader := new Reader(network.segments, network.end, bufferSize);
    }

    // -------------------------------------------------------------------
    // Writing

    method WriteItem(item: Item)
      requires Valid()
      modifies this`output
      ensures Valid() && St() == Write(old(St()), item)
    {
      output := output + [item];
    }

    method Flush() returns (ok: bool)
      requires Valid()
      modifies this`flushes
      ensures Valid() && (St(), ok) == ConnSpec.Flush(env, old(St()))
    {
      ok := env.flushOk(flushes);
      flushes := flushes + 1;
    }

    method ClientError(fault: Fault)
      requires Valid()
      modifies this`output, this`errorCount
      ensures Valid() && St() == ConnSpec.ClientError(old(St()), fault)
    {
      errorCount := errorCount + 1;
      WriteItem(Fail(fault));
    }

    method ReportError(e: SessionError)
      requires Valid()
      modifies this`output, this`closePending
      ensures Valid() && St() == ConnSpec.ReportError(env, old(St()), e)
    {
      match e {
        case Coded(code, message, close) =>
          WriteItem(DenyCoded(code, message));
          if close {
            closePending := true;
          }
        case CloseConnection =>
          WriteItem(Say(NoInternal));
          closePending := true;
        case Plain(text) =>
          if env.options.strictSessionErrors {
            WriteItem(Say(NoInternal));
          } else {
            WriteItem(Deny(text));
          }
      }
    }

    method CountRefusal()
      requires Valid()
      modifies this`errorCount
      ensures Valid() && St() == ConnSpec.CountRefusal(env, old(St()))
    {
      if !env.options.authFailuresExempt {
        errorCount := errorCount + 1;
      }
    }

    method AuthFailure(e: SessionError)
      requires Valid()
      modifies this`output, this`closePending, this`errorCount
      ensures Valid() && St() == ConnSpec.AuthFailure(env, old(St()), e)
    {
      CountRefusal();
      ReportError(e);
    }

    method Advertise(caps: seq<Capability>)
      requires Valid()
      modifies this`output
      ensures Valid() && St() == WriteAll(old(St()), AdvertisedAll(caps))
    {
      for i := 0 to |caps|
        invariant Valid() && output == old(output) + AdvertisedAll(caps[..i])
      {
        output := output + [Advertised(caps[i])];
        assert AdvertisedAll(caps[..i + 1]) == AdvertisedAll(caps[..i]) + [Advertised(caps[i])];
      }
      assert caps[..|caps|] == caps;
    }

    method SendCapabilityBlock()
      requires Valid()
      modifies this`output
      ensures Valid() && St() == ConnSpec.SendCapabilityBlock(env, old(St()))
    {
      hide AdvertisedAll, BaseCapabilities, SecurityCapabilities, SizeCapability;
      var o := env.options;
      Advertise(BaseCapabilities(o));
      Advertise(SecurityCapabilities(o, isTLS));
      Advertise(SizeCapability(o));
      Advertise(o.extraCapabilities);
      AdvertisedInParts(old(output), BaseCapabilities(o), SecurityCapabilities(o, isTLS), SizeCapability(o),
          o.extraCapabilities);
    }

    static lemma AdvertisedInParts(out: seq<Item>, a: seq<Capability>, b: seq<Capability>, c: seq<Capability>,
        d: seq<Capability>)
      ensures out + AdvertisedAll(a) + AdvertisedAll(b) + AdvertisedAll(c) + AdvertisedAll(d)
              == out + AdvertisedAll(a + b + c + d)
    {
    }

    method SendGreeting()
      requires Valid()
      modifies this`output
      ensures Valid() && St() == ConnSpec.SendGreeting(env, old(St()))
    {
      hide Capabilities;
      SendCapabilityBlock();
      WriteItem(Greeting(env.options.greetingStartTLSHint && StartTLSAvailable(env.options, isTLS),
          env.options.greeting));
    }

    // -------------------------------------------------------------------
    // Reading

    method ReadLine() returns (line: LineResult)
      requires Valid()
      modifies reader
      ensures Valid() && (St(), line) == ConnSpec.ReadLine(env, old(St()))
    {
      line := ReadBoundedLine(reader, env.options.maxLineLength);
    }

    /** A literal body of n bytes and the rest of its line. */
    method ReadLiteral(n: nat) returns (body: Option<(string, string)>)
      requires Valid()
      modifies reader
      ensures Valid() && (St(), body) == ConnSpec.ReadLiteral(env, old(St()), n)
    {
      hide FirstLine, AfterLine;
      var data, ok := reader.ReadExactly(n);
      if !ok {
        return None;
      }
      var line := ReadLine();
      if line.NoLine? {
        return None;
      }
      return Some((data, line.text));
    }

    /** reader.Buffered() > 0 */
    method PeekBuffered() returns (pending: bool)
      requires Valid()
      modifies this`peeked
      ensures Valid() && peeked == old(peeked) + [pending] && pending == (reader.buffer != "")
      ensures forall f | Foresees(f) :: old(Foresees(f)) && (St(), pending) == ConnSpec.PeekBuffered(f, old(St()))
    {
      var n := reader.Buffered();
      pending := n > 0;
      peeked := peeked + [pending];
      assert forall i: nat | i < |old(peeked)| :: peeked[i] == old(peeked)[i];
      assert peeked[|old(peeked)|] == pending;
    }

    method RefuseLiteral(nonSync: bool)
      requires Valid()
      modifies this`closePending, this`peeked
      ensures Valid() && old(peeked) <= peeked && reader.View() == old(reader.View())
      ensures forall f | Foresees(f) :: old(Foresees(f)) && St() == ConnSpec.RefuseLiteral(f, old(St()), nonSync)
    {
      if nonSync {
        closePending := true;
      } else {
        var pending := PeekBuffered();
        if pending {
          closePending := true;
        }
      }
    }

    method GoAhead(nonSync: bool) returns (ok: bool)
      requires Valid()
      modifies this`output, this`flushes
      ensures Valid() && (St(), ok) == ConnSpec.GoAhead(env, old(St()), nonSync)
    {
      if nonSync {
        return true;
      }
      WriteItem(Say(Plus));
      ok := Flush();
    }

    method FetchLiteral(n: nat, nonSync: bool, failure: Phrase) returns (body: Option<(string, string)>)
      requires Valid()
      modifies this`output, this`flushes, this`closePending, reader
      ensures Valid() && (St(), body) == ConnSpec.FetchLiteral(env, old(St()), n, nonSync, failure)
    {
      hide ConnSpec.GoAhead, ConnSpec.ReadLiteral;
      var go := GoAhead(nonSync);
      if !go {
        closePending := true;
        return None;
      }
      body := ReadLiteral(n);
      if body == None {
        WriteItem(Say(failure));
        closePending := true;
      }
    }

    method RefuseOverLimit(nonSync: bool)
      requires Valid()
      modifies this`output, this`errorCount, this`closePending, this`peeked
      ensures Valid() && old(peeked) <= peeked && reader.View() == old(reader.View())
      ensures forall f | Foresees(f) ::
                && old(Foresees(f))
                && St() == ConnSpec.RefuseLiteral(f, ConnSpec.ClientError(old(St()), LiteralTooLarge), nonSync)
    {
      hide ConnSpec.RefuseLiteral, ConnSpec.ClientError;
      ClientError(LiteralTooLarge);
      RefuseLiteral(nonSync);
    }

    /** An inline literal and the rest of its line, appended to the arguments. */
    method ReadInline(args: seq<string>, idx: nat, length: nat, nonSync: bool) returns (r: Option<seq<string>>)
      requires Valid() && idx < |args|
      modifies this`output, this`errorCount, this`closePending, this`flushes, reader
      ensures Valid() && |reader.Data()| <= |old(reader.Data())| && (r.Some? ==> |reader.Data()| < |old(reader.Data())|)
      ensures var (s, body) := ConnSpec.FetchLiteral(env, old(St()), length, nonSync, NoLiteralArgument);
              if body == None then r == None && St() == s
              else
                var more := Tokens(Trim(body.value.1));
                if more == None then r == None && St() == ConnSpec.ClientError(s, BadSyntax)
                else r == Some(args[idx := Quote(body.value.0)] + more.value) && St() == s
    {
      hide Tokens, Trim, Quote, ConnSpec.FetchLiteral, ConnSpec.ClientError;
      var body := FetchLiteral(length, nonSync, NoLiteralArgument);
      if body == None {
        return None;
      }
      var more := ParseTokens(Trim(body.value.1));
      if more == None {
        ClientError(BadSyntax);
        return None;
      }
      return Some(args[idx := Quote(body.value.0)] + more.value);
    }

    /** One round: the last of args is a marker that is resolved here; None when it was refused. */
    method ResolveOne(verb: Verb, args: seq<string>, idx: nat, marker: Marker) returns (r: Option<seq<string>>)
      requires Valid() && args != [] && idx == |args| - 1 && marker == LiteralLength(args[idx])
      requires !marker.NotLiteral? && !LiteralDeferred(verb, idx)
      modifies this`output, this`errorCount, this`closePending, this`flushes, this`peeked, reader
      ensures Valid() && old(peeked) <= peeked && |reader.Data()| <= |old(reader.Data())|
      ensures r.None? ==> forall f | Foresees(f) ::
                old(Foresees(f)) && (St(), None) == ConnSpec.ResolveLiteralArgs(f, old(St()), verb, args)
      ensures r.Some? ==>
                && peeked == old(peeked) && |reader.Data()| < |old(reader.Data())|
                && forall f | Twins(env, f) ::
                     ConnSpec.ResolveLiteralArgs(f, old(St()), verb, args)
                         == ConnSpec.ResolveLiteralArgs(f, St(), verb, r.value)
    {
      hide LiteralLength, Tokens, Trim, Quote, ConnSpec.FetchLiteral, ConnSpec.RefuseLiteral, ConnSpec.ClientError,
           ConnSpec.ResolveLiteralArgs, Twins, LiteralDeferred;
      ghost var st := St();
      forall f | Twins(env, f) ensures RoundInTwin(env, f, st, verb, args, idx, marker) {
        TwinRound(env, f, st, verb, args, idx, marker);
      }
      if marker.BadLength? {
        ClientError(BadLiteralLength);
        closePending := closePending || marker.nonSync;
        return None;
      }
      if marker.length > env.options.maxLineLength {
        RefuseOverLimit(marker.nonSync);
        return None;
      }
      r := ReadInline(args, idx, marker.length, marker.nonSync);
    }

    method ResolveLiteralArgs(verb: Verb, given: seq<string>) returns (r: Option<seq<string>>)
      requires Valid()
      modifies this`output, this`errorCount, this`closePending, this`flushes, this`peeked, reader
      ensures Valid() && old(peeked) <= peeked && |reader.Data()| <= |old(reader.Data())|
      ensures forall f | Foresees(f) ::
              old(Foresees(f)) && (St(), r) == ConnSpec.ResolveLiteralArgs(f, old(St()), verb, given)
    {
      hide LiteralLength, ConnSpec.ResolveLiteralArgs;
      var args := given;
      while args != []
        invariant Valid() && peeked == old(peeked) && |reader.Data()| <= |old(reader.Data())|
        invariant forall f | Twins(env, f) ::
                    ConnSpec.ResolveLiteralArgs(f, old(St()), verb, given)
                        == ConnSpec.ResolveLiteralArgs(f, St(), verb, args)
        decreases |reader.Data()|
      {
        var idx := |args| - 1;
        var marker := LiteralLength(args[idx]);
        if marker.NotLiteral? || LiteralDeferred(verb, idx) {
          forall f | Twins(env, f) ensures ConnSpec.ResolveLiteralArgs(f, St(), verb, args) == (St(), Some(args)) {
            ResolveRound(f, St(), verb, args, idx, marker);
          }
          return Some(args);
        }
        var next := ResolveOne(verb, args, idx, marker);
        if next == None {
          return None;
        }
        args := next.value;
      }
      forall f | Twins(env, f) ensures ConnSpec.ResolveLiteralArgs(f, St(), verb, []) == (St(), Some([])) {
        ResolveNothing(f, St(), verb);
      }
      return Some(args);
    }

    method ReadScriptArgument(arg: string) returns (content: Option<string>)
      requires Valid()
      modifies this`output, this`errorCount, this`closePending, this`flushes, this`peeked, reader
      ensures Valid() && old(peeked) <= peeked && |reader.Data()| <= |old(reader.Data())|
      ensures forall f | Foresees(f) ::
              old(Foresees(f)) && (St(), content) == ConnSpec.ReadScriptArgument(f, old(St()), arg)
    {
      hide LiteralLength, Unquote, ConnSpec.FetchLiteral, ConnSpec.RefuseLiteral, ConnSpec.ClientError;
      var marker := LiteralLength(arg);
      if marker.NotLiteral? {
        var text := UnquoteString(arg);
        return Some(text);
      }
      if marker.BadLength? {
        ClientError(BadLiteralLength);
        if marker.nonSync {
          closePending := true;
        }
        return None;
      }
      if 0 < env.options.maxScriptSize < marker.length {
        WriteItem(DenySize(marker.length, env.options.maxScriptSize));
        RefuseLiteral(marker.nonSync);
        return None;
      }
      forall f | Twins(env, f)
        ensures ConnSpec.FetchLiteral(f, old(St()), marker.length, marker.nonSync, NoLiteralContent)
                == ConnSpec.FetchLiteral(env, old(St()), marker.length, marker.nonSync, NoLiteralContent)
      {
        FetchSame(env, f, old(St()), marker.length, marker.nonSync, NoLiteralContent);
      }
      var body := FetchLiteral(marker.length, marker.nonSync, NoLiteralContent);
      return if body == None then None else Some(body.value.0);
    }

    // -------------------------------------------------------------------
    // Authentication

    method CallSession(call: Call) returns (reply: Reply)
      requires Valid()
      modifies this`trace
      ensures Valid() && (St(), reply) == ConnSpec.CallSession(env, old(St()), call)
    {
      reply := env.session(trace, call);
      trace := trace + [Called(call, reply.error.None?)];
    }

    method Hijack()
      requires Valid()
      modifies this`hijacked, this`trace, this`flushes
      ensures Valid() && St() == ConnSpec.Hijack(env, old(St()))
      ensures old(authenticated) || old(hijacked) ==> St() == old(St())
      ensures hijacked <==> old(hijacked) || (!old(authenticated) && env.flushOk(old(flushes)))
    {
      if authenticated || hijacked {
        return;
      }
      var ok := Flush();
      if !ok {
        return;
      }
      hijacked := true;
      trace := trace + [Hijacked];
    }

    method CallAuth(call: Call)
      requires Valid()
      modifies this`authenticated, this`hijacked, this`trace, this`flushes, this`output, this`closePending,
               this`errorCount
      ensures Valid() && St() == ConnSpec.CallAuth(env, old(St()), call)
    {
      hide ConnSpec.Hijack, ConnSpec.AuthFailure;
      var reply := CallSession(call);
      if reply.hijack {
        Hijack();
      }
      if reply.error.Some? {
        AuthFailure(reply.error.value);
        return;
      }
      if hijacked {
        return;
      }
      authenticated := true;
      WriteItem(Say(OkAuthenticated));
    }

    method AuthString(arg: string) returns (data: Option<string>)
      requires Valid()
      modifies this`output, this`errorCount, this`closePending, this`flushes, reader
      ensures Valid() && |reader.Data()| <= |old(reader.Data())|
      ensures (St(), data) == ConnSpec.AuthString(env, old(St()), arg)
    {
      hide LiteralLength, Unquote, ConnSpec.FetchLiteral, ConnSpec.ClientError;
      var marker := LiteralLength(arg);
      if marker.NotLiteral? {
        var text := UnquoteString(arg);
        return Some(text);
      }
      if marker.BadLength? || marker.length > env.options.maxAuthLiteral {
        ClientError(BadLiteralSize);
        closePending := true;
        return None;
      }
      var body := FetchLiteral(marker.length, true, NoAuthFailed);
      return if body == None then None else Some(body.value.0);
    }

    method AuthChallenge() returns (data: Option<string>)
      requires Valid()
      modifies this`output, this`errorCount, this`closePending, this`flushes, reader
      ensures Valid() && |reader.Data()| <= |old(reader.Data())|
      ensures (St(), data) == ConnSpec.AuthChallenge(env, old(St()))
    {
      hide Trim, FirstLine, AfterLine, ConnSpec.AuthString;
      WriteItem(Say(Challenge));
      var ok := Flush();
      if !ok {
        closePending := true;
        return None;
      }
      var line := ReadLine();
      if line.NoLine? {
        WriteItem(Say(NoAuthFailed));
        closePending := true;
        return None;
      }
      var text := Trim(line.text);
      if text == "*" {
        WriteItem(Say(NoAuthCancelled));
        return None;
      }
      data := AuthString(text);
    }

    method PlainLogin(data: string)
      requires Valid()
      modifies this`authenticated, this`hijacked, this`trace, this`flushes, this`output, this`closePending,
               this`errorCount
      ensures Valid() && St() == ConnSpec.PlainLogin(env, old(St()), data)
    {
      hide ConnSpec.CallAuth, ConnSpec.AuthFailure, ConnSpec.ClientError, SplitOn;
      var message := env.decodeBase64(data);
      if message == None {
        ClientError(BadAuthData);
        return;
      }
      var parts := SplitOn(message.value, '\U{00}');
      if |parts| != 3 {
        ClientError(BadAuthFormat);
      } else if parts[2] == "" {
        CountRefusal();
        WriteItem(Say(NoEmptyPassword));
      } else {
        CallAuth(AuthenticatePlain(parts[0], parts[1], parts[2]));
      }
    }

    method HandleAuthenticate(args: seq<string>)
      requires Valid()
      modifies this`authenticated, this`hijacked, this`trace, this`flushes, this`output, this`closePending,
               this`errorCount, reader
      ensures Valid() && |reader.Data()| <= |old(reader.Data())|
      ensures St() == ConnSpec.HandleAuthenticate(env, old(St()), args)
    {
      hide Unquote, ToUpper, ConnSpec.AuthString, ConnSpec.AuthChallenge, ConnSpec.PlainLogin, ConnSpec.ClientError;
      if authenticated {
        ClientError(AlreadyAuthenticated);
        return;
      }
      if args == [] {
        ClientError(AuthSyntax);
        return;
      }
      if !AuthAllowed(env.options, isTLS) {
        ClientError(AuthInsecure);
        return;
      }
      var mechanism := UnquoteString(args[0]);
      if ToUpper(mechanism) != "PLAIN" {
        ClientError(BadMechanism);
        return;
      }
      var data;
      if |args| > 1 {
        data := AuthString(args[1]);
      } else {
        data := AuthChallenge();
      }
      if data == None {
        return;
      }
      PlainLogin(data.value);
    }

    method HandleLogin(args: seq<string>)
      requires Valid()
      modifies this`authenticated, this`hijacked, this`trace, this`flushes, this`output, this`closePending,
               this`errorCount
      ensures Valid() && St() == ConnSpec.HandleLogin(env, old(St()), args)
    {
      hide Unquote, ConnSpec.CallAuth, ConnSpec.ClientError;
      if authenticated {
        ClientError(AlreadyAuthenticated);
      } else if !AuthAllowed(env.options, isTLS) {
        ClientError(AuthInsecure);
      } else if |args| < 2 {
        ClientError(LoginSyntax);
      } else {
        var username := UnquoteString(args[0]);
        var password := UnquoteString(args[1]);
        CallAuth(Login(username, password));
      }
    }

    // -------------------------------------------------------------------
    // STARTTLS

    /** The connection switches to TLS only with nothing of the plaintext left in its buffer. */
    method HandleStartTLS() returns (quit: bool)
      requires Valid()
      modifies this`output, this`errorCount, this`flushes, this`peeked, this`isTLS, this`trace, this`reader
      ensures Valid() && old(peeked) <= peeked && (reader == old(reader) || fresh(reader))
      ensures isTLS == old(isTLS) ==> reader == old(reader)
      ensures isTLS != old(isTLS) ==> isTLS && old(reader.buffer) == ""
      ensures forall f | Foresees(f) :: old(Foresees(f)) && (St(), quit) == ConnSpec.HandleStartTLS(f, old(St()))
    {
      hide ConnSpec.ClientError, ConnSpec.BeginTLS;
      if !env.options.tlsConfigured {
        ClientError(TLSUnsupported);
        return false;
      }
      if isTLS {
        ClientError(TLSActive);
        return false;
      }
      if authenticated {
        ClientError(TLSAfterAuth);
        return false;
      }
      var pipelined := PeekBuffered();
      if pipelined {
        WriteItem(Say(NoPipelinedTLS));
        return true;
      }
      ghost var st := St();
      forall f | Twins(env, f) ensures ConnSpec.BeginTLS(f, st) == ConnSpec.BeginTLS(env, st) {
        BeginTLSSame(env, f, st);
      }
      quit := BeginTLS();
    }

    method BeginTLS() returns (quit: bool)
      requires Valid() && !isTLS
      modifies this`output, this`flushes, this`isTLS, this`trace, this`reader
      ensures Valid() && (reader == old(reader) || fresh(reader)) && (isTLS != old(isTLS) ==> isTLS)
      ensures isTLS == old(isTLS) ==> reader == old(reader)
      ensures (St(), quit) == ConnSpec.BeginTLS(env, old(St()))
    {
      hide ConnSpec.SendGreeting;
      WriteItem(Say(OkBeginTLS));
      var ok := Flush();
      if !ok || tls == None {
        return true;
      }
      UpgradeTLS();
      return false;
    }

    /** A successful handshake: a fresh reader on the TLS stream, and the greeting again. */
    method UpgradeTLS()
      requires Valid() && tls.Some? && !isTLS
      modifies this`output, this`isTLS, this`trace, this`reader
      ensures Valid() && isTLS && fresh(reader)
      ensures var s := old(St());
              St() == ConnSpec.SendGreeting(env,
                  s.(isTLS := true, input := env.tls.value, trace := s.trace + [TLSStarted]))
    {
      hide ConnSpec.SendGreeting;
      reader := new Reader(tls.value.segments, tls.value.end, bufferSize);
      isTLS := true;
      trace := trace + [TLSStarted];
      SendGreeting();
    }

    // -------------------------------------------------------------------
    // Script commands

    method CallForLine(call: Call, phrase: Phrase)
      requires Valid()
      modifies this`trace, this`output, this`closePending, this`errorCount
      ensures Valid() && St() == ConnSpec.CallForLine(env, old(St()), call, phrase)
    {
      hide ConnSpec.ReportError;
      var reply := CallSession(call);
      if reply.error.Some? {
        ReportError(reply.error.value);
      } else {
        WriteItem(Say(phrase));
      }
    }

    method HandleListScripts()
      requires Valid()
      modifies this`trace, this`output, this`closePending
      ensures Valid() && St() == ConnSpec.HandleListScripts(env, old(St()))
    {
      hide ConnSpec.ReportError;
      var reply := CallSession(ListScripts);
      if reply.error.Some? {
        ReportError(reply.error.value);
        return;
      }
      ghost var before := St();
      for i := 0 to |reply.scripts|
        invariant Valid() && St() == WriteAll(before, ListItems(reply.scripts[..i]))
      {
        WriteItem(Listed(reply.scripts[i]));
        assert ListItems(reply.scripts[..i + 1]) == ListItems(reply.scripts[..i]) + [Listed(reply.scripts[i])];
      }
      assert reply.scripts[..|reply.scripts|] == reply.scripts;
      WriteItem(Say(OkBare));
    }

    method ReadName(arg: string) returns (name: string)
      ensures name == Name(arg)
    {
      var text := UnquoteString(arg);
      return Trim(text);
    }

    method HandleGetScript(args: seq<string>)
      requires Valid()
      modifies this`trace, this`output, this`closePending, this`errorCount
      ensures Valid() && St() == ConnSpec.HandleGetScript(env, old(St()), args)
    {
      hide Name, ConnSpec.ReportError, ConnSpec.ClientError;
      if args == [] {
        ClientError(GetSyntax);
        return;
      }
      var name := ReadName(args[0]);
      var reply := CallSession(GetScript(name));
      if reply.error.Some? {
        ReportError(reply.error.value);
        return;
      }
      WriteItem(Blob(reply.text));
      WriteItem(Say(OkBare));
    }

    method HandlePutScript(args: seq<string>)
      requires Valid()
      modifies this`trace, this`output, this`closePending, this`errorCount, this`flushes, this`peeked, reader
      ensures Valid() && old(peeked) <= peeked && |reader.Data()| <= |old(reader.Data())|
      ensures forall f | Foresees(f) :: old(Foresees(f)) && St() == ConnSpec.HandlePutScript(f, old(St()), args)
    {
      hide Name, ValidateScriptName, ConnSpec.ReadScriptArgument, ConnSpec.ReportError, ConnSpec.ClientError;
      if |args| < 2 {
        ClientError(PutSyntax);
        return;
      }
      var content := ReadScriptArgument(args[1]);
      if content == None {
        return;
      }
      var name := ReadName(args[0]);
      var bad := ValidateScriptName(name);
      if bad.Some? {
        ClientError(BadName(bad.value));
        return;
      }
      if 0 < env.options.maxScriptSize < |content.value| {
        WriteItem(DenySize(|content.value|, env.options.maxScriptSize));
        return;
      }
      var reply := CallSession(PutScript(name, content.value));
      if reply.error.Some? {
        ghost var st := St();
        forall f | Twins(env, f)
          ensures ConnSpec.ReportError(f, st, reply.error.value) == ConnSpec.ReportError(env, st, reply.error.value)
        {
          ReportSame(env, f, st, reply.error.value);
        }
        ReportError(reply.error.value);
        return;
      }
      WriteItem(PutResponse(reply));
    }

    method HandleCheckScript(args: seq<string>)
      requires Valid()
      modifies this`trace, this`output, this`closePending, this`errorCount, this`flushes, this`peeked, reader
      ensures Valid() && old(peeked) <= peeked && |reader.Data()| <= |old(reader.Data())|
      ensures forall f | Foresees(f) :: old(Foresees(f)) && St() == ConnSpec.HandleCheckScript(f, old(St()), args)
    {
      hide Name, ValidateScriptName, ConnSpec.ReadScriptArgument, ConnSpec.ReportError, ConnSpec.ClientError;
      if |args| < 1 {
        ClientError(CheckSyntax);
        return;
      }
      var content := ReadScriptArgument(args[0]);
      if content == None {
        return;
      }
      if 0 < env.options.maxScriptSize < |content.value| {
        WriteItem(DenySize(|content.value|, env.options.maxScriptSize));
        return;
      }
      var reply := CallSession(CheckScript(content.value));
      if reply.error.Some? {
        ghost var st := St();
        forall f | Twins(env, f)
          ensures ConnSpec.ReportError(f, st, reply.error.value) == ConnSpec.ReportError(env, st, reply.error.value)
        {
          ReportSame(env, f, st, reply.error.value);
        }
        ReportError(reply.error.value);
        return;
      }
      WriteItem(if reply.warnings != "" then Warnings(reply.warnings) else Say(OkBare));
    }

    method HandleHaveSpace(args: seq<string>)
      requires Valid()
      modifies this`trace, this`output, this`closePending, this`errorCount
      ensures Valid() && St() == ConnSpec.HandleHaveSpace(env, old(St()), args)
    {
      hide Name, Number, ConnSpec.CallForLine, ConnSpec.ClientError;
      if |args| < 2 {
        ClientError(HaveSpaceSyntax);
        return;
      }
      var name := ReadName(args[0]);
      var size := ParseInt64(args[1]);
      if size == None {
        ClientError(BadScriptSize);
      } else if 0 < env.options.maxScriptSize < size.value {
        WriteItem(DenySize(size.value, env.options.maxScriptSize));
      } else {
        CallForLine(HaveSpace(name, size.value), OkBare);
      }
    }

    method HandleRenameScript(args: seq<string>)
      requires Valid()
      modifies this`trace, this`output, this`closePending, this`errorCount
      ensures Valid() && St() == ConnSpec.HandleRenameScript(env, old(St()), args)
    {
      hide Name, ValidateScriptName, ConnSpec.CallForLine, ConnSpec.ClientError;
      if |args| < 2 {
        ClientError(RenameSyntax);
        return;
      }
      var oldName := ReadName(args[0]);
      var newName := ReadName(args[1]);
      var bad := ValidateScriptName(newName);
      if oldName == "" {
        ClientError(EmptyOldName);
      } else if bad.Some? {
        ClientError(BadName(bad.value));
      } else {
        CallForLine(RenameScript(oldName, newName), OkBare);
      }
    }

    method HandleSetActive(args: seq<string>)
      requires Valid()
      modifies this`trace, this`output, this`closePending, this`errorCount
      ensures Valid() && St() == ConnSpec.HandleSetActive(env, old(St()), args)
    {
      hide Name, ConnSpec.CallForLine, ConnSpec.ClientError;
      if args == [] {
        ClientError(SetActiveSyntax);
        return;
      }
      var name := ReadName(args[0]);
      CallForLine(SetActive(name), OkBare);
    }

    method HandleDeleteScript(args: seq<string>)
      requires Valid()
      modifies this`trace, this`output, this`closePending, this`errorCount
      ensures Valid() && St() == ConnSpec.HandleDeleteScript(env, old(St()), args)
    {
      hide Name, ConnSpec.CallForLine, ConnSpec.ClientError;
      if args == [] {
        ClientError(DeleteSyntax);
        return;
      }
      var name := ReadName(args[0]);
      CallForLine(DeleteScript(name), OkDeleted);
    }

    // -------------------------------------------------------------------
    // The command loop

    /** The script commands that never look at the buffer do in f what they do in env. */
    ghost predicate PlainCommandsAgree(f: Env, st: State, args: seq<string>) {
      && ConnSpec.HandleListScripts(f, st) == ConnSpec.HandleListScripts(env, st)
      && ConnSpec.HandleGetScript(f, st, args) == ConnSpec.HandleGetScript(env, st, args)
      && ConnSpec.HandleHaveSpace(f, st, args) == ConnSpec.HandleHaveSpace(env, st, args)
      && ConnSpec.HandleRenameScript(f, st, args) == ConnSpec.HandleRenameScript(env, st, args)
      && ConnSpec.HandleSetActive(f, st, args) == ConnSpec.HandleSetActive(env, st, args)
      && ConnSpec.HandleDeleteScript(f, st, args) == ConnSpec.HandleDeleteScript(env, st, args)
    }

    method ScriptCommand(verb: Verb, args: seq<string>)
      requires Valid() && verb.IsScriptCommand()
      modifies this`trace, this`output, this`closePending, this`errorCount, this`flushes, this`peeked, reader
      ensures Valid() && old(peeked) <= peeked && |reader.Data()| <= |old(reader.Data())|
      ensures forall f | Foresees(f) :: old(Foresees(f)) && St() == ConnSpec.ScriptCommand(f, old(St()), verb, args)
    {
      hide ConnSpec.HandleListScripts, ConnSpec.HandleGetScript, ConnSpec.HandlePutScript, ConnSpec.HandleCheckScript,
           ConnSpec.HandleHaveSpace, ConnSpec.HandleRenameScript, ConnSpec.HandleSetActive, ConnSpec.HandleDeleteScript,
           ConnSpec.ClientError;
      if !authenticated {
        ClientError(NotAuthenticated);
        return;
      }
      forall f | Twins(env, f) ensures PlainCommandsAgree(f, old(St()), args) {
        ListAndGetSame(env, f, old(St()), args);
        OneLineSame(env, f, old(St()), args);
      }
      match verb {
        case LISTSCRIPTS => HandleListScripts();
        case GETSCRIPT => HandleGetScript(args);
        case PUTSCRIPT => HandlePutScript(args);
        case CHECKSCRIPT => HandleCheckScript(args);
        case HAVESPACE => HandleHaveSpace(args);
        case RENAMESCRIPT => HandleRenameScript(args);
        case SETACTIVE => HandleSetActive(args);
        case DELETESCRIPT => HandleDeleteScript(args);
        case _ =>
      }
    }

    method Noop(args: seq<string>)
      requires Valid()
      modifies this`output
      ensures Valid() && St() == ConnSpec.Noop(old(St()), args)
    {
      hide Unquote;
      if args != [] {
        var tag := UnquoteString(args[0]);
        WriteItem(Tag(tag));
      } else {
        WriteItem(Say(OkBare));
      }
    }

    method Capability()
      requires Valid()
      modifies this`output
      ensures Valid() && St() == ConnSpec.SayTo(ConnSpec.SendCapabilityBlock(env, old(St())), OkBare)
    {
      hide ConnSpec.SendCapabilityBlock;
      SendCapabilityBlock();
      WriteItem(Say(OkBare));
    }

    method LoginOrUnknown(args: seq<string>)
      requires Valid()
      modifies this`authenticated, this`hijacked, this`trace, this`flushes, this`output, this`closePending,
               this`errorCount
      ensures Valid()
      ensures St() == if env.hasLogin then ConnSpec.HandleLogin(env, old(St()), args)
                      else ConnSpec.ClientError(old(St()), UnknownCommand)
    {
      hide ConnSpec.HandleLogin, ConnSpec.ClientError;
      if env.hasLogin {
        HandleLogin(args);
      } else {
        ClientError(UnknownCommand);
      }
    }

    ghost predicate OtherCommandsAgree(f: Env, st: State, args: seq<string>) {
      && ConnSpec.SendCapabilityBlock(f, st) == ConnSpec.SendCapabilityBlock(env, st)
      && ConnSpec.HandleAuthenticate(f, st, args) == ConnSpec.HandleAuthenticate(env, st, args)
      && ConnSpec.HandleLogin(f, st, args) == ConnSpec.HandleLogin(env, st, args)
    }

    method Dispatch(verb: Verb, args: seq<string>) returns (quit: bool)
      requires Valid()
      modifies this, reader
      ensures Valid() && old(peeked) <= peeked && (reader == old(reader) || fresh(reader))
      ensures old(isTLS) ==> isTLS
      ensures isTLS == old(isTLS) ==> reader == old(reader) && |reader.Data()| <= |old(reader.Data())|
      ensures forall f | Foresees(f) :: old(Foresees(f)) && (St(), quit) == ConnSpec.Dispatch(f, old(St()), verb, args)
    {
      hide ConnSpec.SendCapabilityBlock, ConnSpec.HandleStartTLS, ConnSpec.HandleAuthenticate, ConnSpec.HandleLogin,
           ConnSpec.ScriptCommand, ConnSpec.ClientError, ConnSpec.Noop;
      quit := false;
      forall f | Twins(env, f) ensures OtherCommandsAgree(f, old(St()), args) {
        GreetingSame(env, f, old(St()));
        AuthenticateSame(env, f, old(St()), args);
        LoginSame(env, f, old(St()), args);
      }
      match verb {
        case CAPABILITY => Capability();
        case STARTTLS => quit := HandleStartTLS();
        case AUTHENTICATE => HandleAuthenticate(args);
        case LOGIN => LoginOrUnknown(args);
        case NOOP => Noop(args);
        case LOGOUT =>
          WriteItem(Say(OkGoodbye));
          quit := true;
        case UNKNOWN => ClientError(UnknownCommand);
        case _ => ScriptCommand(verb, args);
      }
    }

    method RunCommand(line: string) returns (quit: bool)
      requires Valid()
      modifies this, reader
      ensures Valid() && old(peeked) <= peeked && (reader == old(reader) || fresh(reader))
      ensures old(isTLS) ==> isTLS
      ensures isTLS == old(isTLS) ==> reader == old(reader) && |reader.Data()| <= |old(reader.Data())|
      ensures forall f | Foresees(f) :: old(Foresees(f)) && (St(), quit) == ConnSpec.RunCommand(f, old(St()), line)
    {
      hide ConnSpec.ResolveLiteralArgs, ConnSpec.Dispatch, ConnSpec.ClientError, ParseLine, ReadVerb;
      match ParseLine(line) {
        case Syntax =>
          ClientError(BadSyntax);
          return false;
        case Command(cmd, tokens) =>
          var verb := ReadVerb(cmd);
          var args := ResolveLiteralArgs(verb, tokens);
          if args == None {
            return false;
          }
          quit := Dispatch(verb, args.value);
      }
    }

    method Farewell(phrase: Phrase)
      requires Valid()
      modifies this`output, this`flushes
      ensures Valid() && St() == ConnSpec.Farewell(env, old(St()), phrase)
    {
      WriteItem(Say(phrase));
      var _ := Flush();
    }

    method LookAtContext() returns (done: bool)
      requires Valid()
      modifies this`looks
      ensures Valid() && (St(), done) == ConnSpec.LookAtContext(env, old(St()))
    {
      done := env.contextDone(looks);
      looks := looks + 1;
    }

    method EndOfInput(e: LineError)
      requires Valid()
      modifies this`output, this`flushes, this`looks
      ensures Valid() && St() == ConnSpec.EndOfInput(env, old(St()), e)
    {
      hide ConnSpec.Farewell;
      var done := LookAtContext();
      if done {
        Farewell(if env.absoluteTimeout then ByeAbsolute else ByeShutdown);
      } else {
        match e {
          case Ended(Timeout) => Farewell(if env.absoluteTimeout then ByeAbsolute else ByeIdle);
          case TooLong => Farewell(NoLineTooLong);
          case MissingCRLF => Farewell(NoMissingCRLF);
          case Ended(_) =>
        }
      }
    }

    method Settle(quit: bool) returns (more: bool)
      requires Valid()
      modifies this`output, this`flushes
      ensures Valid() && (St(), more) == ConnSpec.Settle(env, old(St()), quit)
    {
      if hijacked {
        return false;
      }
      var closing := quit || closePending;
      if !closing && env.options.maxErrors > 0 && errorCount >= env.options.maxErrors {
        WriteItem(Say(ByeErrors));
        closing := true;
      }
      var ok := Flush();
      return ok && !closing;
    }

    /** The body of the loop of serve. */
    method Iterate() returns (more: bool)
      requires Valid() && !hijacked
      modifies this, reader
      ensures Valid() && old(peeked) <= peeked && (reader == old(reader) || fresh(reader))
      ensures more ==>
                && !hijacked && (old(isTLS) ==> isTLS)
                && (isTLS == old(isTLS) ==> |reader.Data()| < |old(reader.Data())|)
      ensures forall f | Foresees(f) :: old(Foresees(f)) && (St(), more) == ConnSpec.Iterate(f, old(St()))
    {
      hide ConnSpec.RunCommand, ConnSpec.Settle, ConnSpec.EndOfInput, ConnSpec.Farewell, FirstLine, AfterLine, Trim;
      var done := LookAtContext();
      if done {
        forall f | Twins(env, f) ensures ConnSpec.ShutdownBye(f, St()) == ConnSpec.ShutdownBye(env, St()) {
          EndSame(env, f, St(), TooLong);
        }
        Farewell(if env.absoluteTimeout then ByeAbsolute else ByeShutdown);
        return false;
      }
      var line := ReadLine();
      ghost var st := St();
      if line.NoLine? {
        forall f | Twins(env, f) ensures ConnSpec.EndOfInput(f, st, line.error)
            == ConnSpec.EndOfInput(env, st, line.error) {
          EndSame(env, f, st, line.error);
        }
        EndOfInput(line.error);
        return false;
      }
      var text := Trim(line.text);
      if text == "" {
        return true;
      }
      var quit := RunCommand(text);
      st := St();
      forall f | Twins(env, f) ensures ConnSpec.Settle(f, st, quit) == ConnSpec.Settle(env, st, quit) {
        SettleSame(env, f, st, quit);
      }
      SettleMore(env, st, quit);
      more := Settle(quit);
    }

    method RunLoop()
      requires Valid() && !hijacked
      modifies this, reader
      ensures Valid() && old(peeked) <= peeked
      ensures forall f | Foresees(f) :: old(Foresees(f)) && St() == Loop(f, old(St()))
    {
      hide ConnSpec.Iterate;
      ghost var start := St();
      var more := true;
      while more
        invariant Valid() && old(peeked) <= peeked && (reader == old(reader) || fresh(reader))
        invariant more ==> !hijacked
        invariant forall f | Foresees(f) :: old(Foresees(f)) && Loop(f, start) == if more then Loop(f, St()) else St()
        decreases more, if isTLS then 0 else 1, |reader.Data()|
      {
        more := Iterate();
      }
    }

    /** The whole life of the connection, for every segmentation of its input. */
    method Serve()
      requires Valid() && !hijacked
      modifies this, reader
      ensures Valid() && old(peeked) <= peeked
      ensures forall f | Foresees(f) :: old(Foresees(f)) && St() == Serving.Serve(f, old(St()))
    {
      hide ConnSpec.SendGreeting, Loop;
      forall f | Twins(env, f) ensures ConnSpec.SendGreeting(f, old(St())) == ConnSpec.SendGreeting(env, old(St())) {
        GreetingSame(env, f, old(St()));
      }
      SendGreeting();
      var ok := Flush();
      if ok {
        RunLoop();
      }
      trace := trace + [Called(Close, true)];
      if !hijacked {
        trace := trace + [SocketClosed];
      }
    }

    static lemma SettleMore(env: Env, st: State, quit: bool)
      ensures ConnSpec.Settle(env, st, quit).1 ==> !st.hijacked
    {
    }
  }
}
