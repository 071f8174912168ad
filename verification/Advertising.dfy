/**
  What a server's capability listing teaches its client, name by name (sections
  1.7 and 2.4 of RFC 5804).
 */
module Advertising {
  import opened Text
  import opened LineReader
  import opened Protocol
  import opened ConnSpec
  import opened Client
  import Calls
  import Responses

  /** The operator has not configured a capability of this name. */
  predicate Free(o: Options, key: string) {
    forall i | 0 <= i < |o.extraCapabilities| :: !Teaches(o.extraCapabilities[i], key)
  }

  /** The map holds this value under the name, or, for None, has no such name. */
  predicate Knows(caps: CapMap, key: string, value: Option<string>) {
    if value == None then key !in caps else key in caps && caps[key] == value.value
  }

  /** What a client has to know of a server before it can go on. */
  function Due(o: Options, isTLS: bool, key: string): Option<string> {
    match key
    case "IMPLEMENTATION" => Some(o.implementation)
    case "VERSION" => Some("1.0")
    case "SIEVE" => Some(JoinWithSpaces(o.sieveExtensions))
    case "STARTTLS" => if o.tlsConfigured && !isTLS then Some("") else None
    case "SASL" => Some(if isTLS || o.insecureAuth then "PLAIN" else "")
    case "MAXSCRIPTSIZE" => if o.maxScriptSize > 0 then Some(Decimal(o.maxScriptSize)) else None
    case _ => None
  }

  lemma {:induction false} LearnFrom(listed: seq<Capability>, more: seq<Capability>, caps: CapMap)
    ensures LearnAll(caps, listed + more) == LearnAll(LearnAll(caps, listed), more)
    decreases |listed|
  {
    hide Learn;
    if listed == [] {
      assert listed + more == more;
    } else {
      var c := listed[0];
      assert (listed + more)[1..] == listed[1..] + more;
      LearnFrom(listed[1..], more, Learn(caps, c.name, if c.hasValue then c.value else ""));
    }
  }

  lemma LearnOne(caps: CapMap, c: Capability)
    requires c.name != "" && ToUpper(c.name) == c.name
    ensures LearnAll(caps, [c]) == caps[c.name := if c.hasValue then c.value else ""]
  {
    hide ToUpper;
    assert [c][1..] == [];
  }

  lemma UpperNames()
    ensures ToUpper("IMPLEMENTATION") == "IMPLEMENTATION" && ToUpper("VERSION") == "VERSION"
            && ToUpper("SIEVE") == "SIEVE"
    ensures ToUpper("STARTTLS") == "STARTTLS" && ToUpper("SASL") == "SASL"
            && ToUpper("MAXSCRIPTSIZE") == "MAXSCRIPTSIZE"
  {
    hide ToUpper;
    ToUpperId("IMPLEMENTATION");
    ToUpperId("VERSION");
    ToUpperId("SIEVE");
    ToUpperId("STARTTLS");
    ToUpperId("SASL");
    ToUpperId("MAXSCRIPTSIZE");
  }

  lemma BaseLearned(o: Options, caps: CapMap)
    ensures LearnAll(caps, BaseCapabilities(o)) ==
            caps["IMPLEMENTATION" := o.implementation]["VERSION" := "1.0"]["SIEVE" := JoinWithSpaces(o.sieveExtensions)]
  {
    hide JoinWithSpaces, ToUpper;
    UpperNames();
    var a, b, c := BaseCapabilities(o)[0], BaseCapabilities(o)[1], BaseCapabilities(o)[2];
    assert BaseCapabilities(o) == [a] + ([b] + [c]);
    LearnFrom([a], [b] + [c], caps);
    LearnOne(caps, a);
    LearnFrom([b], [c], caps["IMPLEMENTATION" := o.implementation]);
    LearnOne(caps["IMPLEMENTATION" := o.implementation], b);
    LearnOne(caps["IMPLEMENTATION" := o.implementation]["VERSION" := "1.0"], c);
  }

  lemma SecurityLearned(o: Options, isTLS: bool, caps: CapMap)
    ensures LearnAll(caps, SecurityCapabilities(o, isTLS)) ==
            (if o.tlsConfigured && !isTLS then caps["STARTTLS" := ""] else caps)
                ["SASL" := if isTLS || o.insecureAuth then "PLAIN" else ""]
  {
    hide ToUpper;
    UpperNames();
    var tls, sasl := Capability("STARTTLS", "", false),
        Capability("SASL", if isTLS || o.insecureAuth then "PLAIN" else "", true);
    if o.tlsConfigured && !isTLS {
      LearnFrom([tls], [sasl], caps);
      LearnOne(caps, tls);
      LearnOne(caps["STARTTLS" := ""], sasl);
    } else {
      assert [] + [sasl] == [sasl];
      LearnOne(caps, sasl);
    }
  }

  lemma SizeLearned(o: Options, caps: CapMap)
    ensures LearnAll(caps, SizeCapability(o)) ==
            if o.maxScriptSize > 0 then caps["MAXSCRIPTSIZE" := Decimal(o.maxScriptSize)] else caps
  {
    hide ToUpper, Decimal;
    UpperNames();
    if o.maxScriptSize > 0 {
      LearnOne(caps, SizeCapability(o)[0]);
    }
  }

  /**
    From a server's listing a client learns, under every name the operator has
    not taken for a capability of its own, exactly what it is due: what server
    and which extensions, PLAIN where credentials are accepted and nowhere else,
    STARTTLS where it would be obeyed, the script limit where there is one, and
    nothing more.
   */
  lemma ListingTeaches(o: Options, isTLS: bool, key: string)
    requires Free(o, key)
    ensures Knows(LearnAll(map[], Capabilities(o, isTLS)), key, Due(o, isTLS, key))
  {
    hide JoinWithSpaces, Decimal, LearnAll, BaseCapabilities, SecurityCapabilities, SizeCapability;
    var base, security, size := BaseCapabilities(o), SecurityCapabilities(o, isTLS), SizeCapability(o);
    LearnFrom(base + security + size, o.extraCapabilities, map[]);
    LearnFrom(base + security, size, map[]);
    LearnFrom(base, security, map[]);
    BaseLearned(o, map[]);
    SecurityLearned(o, isTLS, LearnAll(map[], base));
    SizeLearned(o, LearnAll(map[], base + security));
    UnlistedIsKept(LearnAll(map[], base + security + size), o.extraCapabilities, key);
  }

  /** The listed extensions are recovered, in order. */
  lemma {:induction false} ExtensionsRoundTrip(words: seq<string>)
    requires words != [] && forall i | 0 <= i < |words| :: Lacks(words[i], ' ')
    ensures SplitOn(JoinWithSpaces(words), ' ') == words
  {
    hide SplitOn;
    if |words| == 1 {
      Calls.SplitLast(words[0], ' ');
    } else {
      ExtensionsRoundTrip(words[1..]);
      Calls.SplitFirst(words[0], ' ', JoinWithSpaces(words[1..]));
      assert words[0] + [' '] + JoinWithSpaces(words[1..]) == JoinWithSpaces(words);
    }
  }

  /** CAPABILITY teaches a client within its limits what the greeting does. */
  lemma ReplyTeaches(o: Options, isTLS: bool, tail: string, end: End, maxLine: int, maxCaps: nat)
    requires Responses.CleanOptions(o)
    requires var items := ListingItems(o, isTLS, Say(OkBare));
             |items| <= maxCaps && forall item | item in items :: |LineOf(item)| <= maxLine
    ensures var items := ListingItems(o, isTLS, Say(OkBare));
            ReadBlock(Stream(Render(items) + tail, end), maxLine, maxCaps, map[])
            == (Listing(LearnAll(map[], Capabilities(o, isTLS)), "OK"), Stream(tail, end))
  {
    hide Capabilities, ReadBlock, LearnAll, Render, Responses.CleanOptions;
    assert LineOf(Say(OkBare)) == "OK";
    ListingRoundTrip(o, isTLS, Say(OkBare), tail, end, maxLine, maxCaps);
  }
}
