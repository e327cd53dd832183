/**
 * What the driver's rules mean for packets: the words of a rule as iptables reads them, and what
 * the tables do with packets once a task is configured (net/filter/iptables/tables.go).
 */
module IptablesPackets {
  import opened Wrappers
  import opened Text
  import opened IptablesRequest
  import opened IptablesState
  import opened IptablesDriver
  import opened IptablesHashing

  // ---- Reading rules -----------------------------------------------------------------------

  /** A packet, with all that rules look at; addresses are compared as they are written. */
  datatype Packet = Packet(
    source: string, destination: string, arrivesOn: string, leavesBy: string, protocol: string, port: nat,
    state: string, sourceType: string, destinationType: string)

  /** An option of a rule with its argument. */
  datatype Term =
    | From(address: string) | To(address: string) | Arriving(iface: string) | Leaving(iface: string)
    | Protocol(name: string) | ToPort(port: nat) | InState(name: string)
    | SourceType(name: string) | DestinationType(name: string)
    | Extension(name: string) | Target(name: string) | NewDestination(address: string, port: nat) | Unread

  function ReadNumber(word: string): Option<nat> {
    if word != "" && AllDigits(word) then Some(Value(word)) else None
  }

  /** The text up to the last colon and what follows it. */
  function CutAtColon(word: string): Option<(string, string)> {
    if word == "" then None
    else
      var front, last := word[..|word| - 1], word[|word| - 1];
      if last == ':' then Some((front, ""))
      else match CutAtColon(front) case None => None case Some(cut) => Some((cut.0, cut.1 + [last]))
  }

  function ReadDestination(word: string): Term {
    match CutAtColon(word)
    case None => Unread
    case Some(cut) => if ReadNumber(cut.1).None? then Unread else NewDestination(cut.0, ReadNumber(cut.1).value)
  }

  function TermOf(option: string, word: string): Term {
    if option == "-s" then From(word)
    else if option == "-d" then To(word)
    else if option == "-i" then Arriving(word)
    else if option == "-o" then Leaving(word)
    else if option == "-p" then Protocol(word)
    else if option == "-m" then Extension(word)
    else if option == "-j" then Target(word)
    else if option == "--dport" then if ReadNumber(word).None? then Unread else ToPort(ReadNumber(word).value)
    else if option == "--state" then InState(word)
    else if option == "--src-type" then SourceType(word)
    else if option == "--dst-type" then DestinationType(word)
    else if option == "--to-destination" then ReadDestination(word)
    else Unread
  }

  /** Every option here takes one argument. */
  function TermsBy(read: (string, string) -> Term, spec: Spec): seq<Term> {
    if |spec| % 2 == 1 then [Unread]
    else seq(|spec| / 2, k requires 0 <= k < |spec| / 2 => read(spec[2 * k], spec[2 * k + 1]))
  }

  function Terms(spec: Spec): seq<Term> {
    TermsBy(TermOf, spec)
  }

  predicate Allows(t: Term, p: Packet) {
    match t
    case From(a) => p.source == a
    case To(a) => p.destination == a
    case Arriving(i) => p.arrivesOn == i
    case Leaving(i) => p.leavesBy == i
    case Protocol(name) => p.protocol == name
    case ToPort(n) => p.port == n
    case InState(name) => p.state == name
    case SourceType(name) => p.sourceType == name
    case DestinationType(name) => p.destinationType == name
    case Unread => false
    case _ => true
  }

  predicate AllAllow(ts: seq<Term>, p: Packet) {
    forall t :: t in ts ==> Allows(t, p)
  }

  /** The rule is for the packet. */
  predicate Takes(spec: Spec, p: Packet) {
    AllAllow(Terms(spec), p)
  }

  /** What becomes of a packet: the target, and a new destination if one is given. */
  datatype Fate = Fate(target: string, destination: Option<(string, nat)>)

  ghost predicate TermsMean(ts: seq<Term>, fate: Fate) {
    && (forall name :: Target(name) in ts <==> name == fate.target)
    && (forall a, n: nat :: NewDestination(a, n) in ts <==> fate.destination == Some((a, n)))
  }

  ghost predicate Means(spec: Spec, fate: Fate) {
    TermsMean(Terms(spec), fate)
  }

  /** Some rule of the chain takes the packet, and all that do agree on what becomes of it. */
  ghost predicate Settles(specs: seq<Spec>, p: Packet, fate: Fate) {
    && (exists spec :: spec in specs && Takes(spec, p))
    && forall spec :: spec in specs && Takes(spec, p) ==> Means(spec, fate)
  }

  /** Some rule of the chain takes the packet and does this with it. */
  ghost predicate Does(t: Tables, key: Key, p: Packet, fate: Fate) {
    key in t && exists spec :: spec in t[key] && Takes(spec, p) && Means(spec, fate)
  }

  lemma {:induction false} CutOf(a: string, b: string)
    requires ':' !in b
    ensures CutAtColon(a + ":" + b) == Some((a, b))
  {
    var word := a + ":" + b;
    if b == "" {
      assert word[..|word| - 1] == a && word[|word| - 1] == ':';
    } else {
      var n := |b| - 1;
      assert b == b[..n] + [b[n]];
      assert word[..|word| - 1] == a + ":" + b[..n] && word[|word| - 1] == b[n];
      CutOf(a, b[..n]);
    }
  }

  /** A destination is read back. */
  lemma DestinationRead(ip: string, port: nat)
    ensures ReadDestination(ip + ":" + Itoa(port)) == NewDestination(ip, port)
  {
    CutOf(ip, Itoa(port));
    ValueOfPrint(port);
  }

  // ---- The words the driver uses -----------------------------------------------------------

  ghost predicate ReadsShort(read: (string, string) -> Term) {
    && (forall word :: read("-s", word) == From(word))
    && (forall word :: read("-d", word) == To(word))
    && (forall word :: read("-i", word) == Arriving(word))
    && (forall word :: read("-o", word) == Leaving(word))
  }

  ghost predicate ReadsKinds(read: (string, string) -> Term) {
    && (forall word :: read("-p", word) == Protocol(word))
    && (forall word :: read("-m", word) == Extension(word))
    && (forall word :: read("-j", word) == Target(word))
  }

  ghost predicate ReadsLong(read: (string, string) -> Term) {
    && (forall word :: read("--state", word) == InState(word))
    && (forall word :: read("--src-type", word) == SourceType(word))
    && (forall word :: read("--dst-type", word) == DestinationType(word))
  }

  ghost predicate ReadsNumbers(read: (string, string) -> Term) {
    && (forall n: nat :: read("--dport", Itoa(n)) == ToPort(n))
    && (forall ip, n: nat :: read("--to-destination", ip + ":" + Itoa(n)) == NewDestination(ip, n))
  }

  /** Options with their arguments are read as the terms they stand for. */
  ghost predicate Reads(read: (string, string) -> Term) {
    ReadsShort(read) && ReadsKinds(read) && ReadsLong(read) && ReadsNumbers(read)
  }

  lemma TermOfShort()
    ensures ReadsShort(TermOf)
  {
  }

  lemma TermOfKinds()
    ensures ReadsKinds(TermOf)
  {
  }

  lemma TermOfLong()
    ensures ReadsLong(TermOf)
  {
  }

  lemma TermOfNumbers()
    ensures ReadsNumbers(TermOf)
  {
    forall n: nat ensures ReadNumber(Itoa(n)) == Some(n) {
      ValueOfPrint(n);
    }
    forall ip, n: nat ensures ReadDestination(ip + ":" + Itoa(n)) == NewDestination(ip, n) {
      DestinationRead(ip, n);
    }
  }

  lemma TermOfReads()
    ensures Reads(TermOf)
  {
    TermOfShort();
    TermOfKinds();
    TermOfLong();
    TermOfNumbers();
  }

  lemma TermAt(read: (string, string) -> Term, spec: Spec, k: nat)
    requires |spec| % 2 == 0 && k < |spec| / 2
    ensures |TermsBy(read, spec)| == |spec| / 2 && TermsBy(read, spec)[k] == read(spec[2 * k], spec[2 * k + 1])
  {
  }

  lemma SevenTerms(read: (string, string) -> Term, a: string, a': string, b: string, b': string, c: string, c': string,
      d: string, d': string, e: string, e': string, f: string, f': string, g: string, g': string)
    ensures TermsBy(read, [a, a', b, b', c, c', d, d', e, e', f, f', g, g']) ==
            [read(a, a'), read(b, b'), read(c, c'), read(d, d'), read(e, e'), read(f, f'), read(g, g')]
  {
    var spec := [a, a', b, b', c, c', d, d', e, e', f, f', g, g'];
    TermAt(read, spec, 0);
    TermAt(read, spec, 1);
    TermAt(read, spec, 2);
    TermAt(read, spec, 3);
    TermAt(read, spec, 4);
    TermAt(read, spec, 5);
    TermAt(read, spec, 6);
  }

  lemma PreroutingTerms(read: (string, string) -> Term, n: Names, port: Port, iface: string, ip: string)
    requires Reads(read) && port.value >= 0 && port.to >= 0
    ensures TermsBy(read, ForwardRules(n, port, iface, ip)[0].spec) ==
            [To(port.hostIP), Arriving(iface), Protocol("tcp"), Extension("tcp"), ToPort(port.value), Target("DNAT"),
             NewDestination(ip, port.to)]
  {
    SevenTerms(read, "-d", port.hostIP, "-i", iface, "-p", "tcp", "-m", "tcp", "--dport", Itoa(port.value),
               "-j", "DNAT", "--to-destination", ip + ":" + Itoa(port.to));
  }

  lemma ForwardTerms(read: (string, string) -> Term, n: Names, port: Port, iface: string, ip: string)
    requires Reads(read) && port.value >= 0 && port.to >= 0
    ensures TermsBy(read, ForwardRules(n, port, iface, ip)[1].spec) ==
            [To(ip), Protocol("tcp"), Extension("state"), InState("NEW"), Extension("tcp"), ToPort(port.to),
             Target("ACCEPT")]
  {
    SevenTerms(read, "-d", ip, "-p", "tcp", "-m", "state", "--state", "NEW", "-m", "tcp", "--dport", Itoa(port.to),
               "-j", "ACCEPT");
  }

  lemma OutputTerms(read: (string, string) -> Term, n: Names, port: Port, iface: string, dst: string, ip: string)
    requires Reads(read) && port.value >= 0 && port.to >= 0
    ensures TermsBy(read, LoopbackRules(n, port, iface, dst, ip)[3].spec) ==
            [From(port.hostIP), Leaving(iface), Protocol("tcp"), Extension("tcp"), ToPort(port.value), Target("DNAT"),
             NewDestination(ip, port.to)]
  {
    SevenTerms(read, "-s", port.hostIP, "-o", iface, "-p", "tcp", "-m", "tcp", "--dport", Itoa(port.value),
               "-j", "DNAT", "--to-destination", ip + ":" + Itoa(port.to));
  }

  lemma FiveTerms(read: (string, string) -> Term, a: string, a': string, b: string, b': string, c: string, c': string,
      d: string, d': string, e: string, e': string)
    ensures TermsBy(read, [a, a', b, b', c, c', d, d', e, e']) ==
            [read(a, a'), read(b, b'), read(c, c'), read(d, d'), read(e, e')]
  {
    var spec := [a, a', b, b', c, c', d, d', e, e'];
    TermAt(read, spec, 0);
    TermAt(read, spec, 1);
    TermAt(read, spec, 2);
    TermAt(read, spec, 3);
    TermAt(read, spec, 4);
  }

  lemma MasqueradeTerms(read: (string, string) -> Term, n: Names, port: Port, iface: string, dst: string, ip: string)
    requires Reads(read)
    ensures TermsBy(read, LoopbackRules(n, port, iface, dst, ip)[2].spec) ==
            [Leaving(dst), Extension("addrtype"), SourceType("LOCAL"), DestinationType("UNICAST"), Target("MASQUERADE")]
  {
    FiveTerms(read, "-o", dst, "-m", "addrtype", "--src-type", "LOCAL", "--dst-type", "UNICAST", "-j", "MASQUERADE");
  }

  lemma JumpTerms(read: (string, string) -> Term, chain: string)
    requires Reads(read)
    ensures TermsBy(read, ["-j", chain]) == [Target(chain)]
  {
  }

  // ---- What the driver's rules mean --------------------------------------------------------

  lemma AllowSeven(ts: seq<Term>, p: Packet)
    requires |ts| == 7
    ensures AllAllow(ts, p) <==>
            && Allows(ts[0], p) && Allows(ts[1], p) && Allows(ts[2], p) && Allows(ts[3], p)
            && Allows(ts[4], p) && Allows(ts[5], p) && Allows(ts[6], p)
  {
  }

  /** A rule that gives a new destination to packets from or to somewhere, on a device, for a port. */
  lemma TranslationMeans(ts: seq<Term>, where: Term, device: Term, protocol: string, module_: string, port: nat,
      target: string, address: string, to: nat)
    requires where.From? || where.To?
    requires device.Arriving? || device.Leaving?
    requires ts == [where, device, Protocol(protocol), Extension(module_), ToPort(port), Target(target),
                    NewDestination(address, to)]
    ensures forall p :: AllAllow(ts, p) <==>
              Allows(where, p) && Allows(device, p) && p.protocol == protocol && p.port == port
    ensures TermsMean(ts, Fate(target, Some((address, to))))
  {
    forall p {
      AllowSeven(ts, p);
    }
    assert ts[5] in ts && ts[6] in ts;
  }

  lemma AcceptanceMeans(ts: seq<Term>, address: string, protocol: string, m0: string, state: string, m1: string,
      port: nat, target: string)
    requires ts == [To(address), Protocol(protocol), Extension(m0), InState(state), Extension(m1), ToPort(port),
                    Target(target)]
    ensures forall p :: AllAllow(ts, p) <==>
              p.destination == address && p.protocol == protocol && p.state == state && p.port == port
    ensures TermsMean(ts, Fate(target, None))
  {
    forall p {
      AllowSeven(ts, p);
    }
    assert ts[6] in ts;
  }

  lemma DisguiseMeans(ts: seq<Term>, device: string, m: string, src: string, dst: string, target: string)
    requires ts == [Leaving(device), Extension(m), SourceType(src), DestinationType(dst), Target(target)]
    ensures forall p :: AllAllow(ts, p) <==> p.leavesBy == device && p.sourceType == src && p.destinationType == dst
    ensures TermsMean(ts, Fate(target, None))
  {
    assert ts[0] in ts && ts[2] in ts && ts[3] in ts && ts[4] in ts;
  }

  lemma JumpMeans(chain: string)
    ensures forall p :: Takes(["-j", chain], p)
    ensures Means(["-j", chain], Fate(chain, None))
  {
    TermOfReads();
    JumpTerms(TermOf, chain);
    var ts := Terms(["-j", chain]);
    assert ts[0] in ts;
  }

  /** On the way in: what is sent to the port on the host goes to the task's address and port. */
  lemma PreroutingMeans(n: Names, port: Port, iface: string, ip: string)
    requires port.value >= 0 && port.to >= 0
    ensures var spec := ForwardRules(n, port, iface, ip)[0].spec;
            && Means(spec, Fate("DNAT", Some((ip, port.to))))
            && forall p :: Takes(spec, p) <==>
                 p.destination == port.hostIP && p.arrivesOn == iface && p.protocol == "tcp" && p.port == port.value
  {
    TermOfReads();
    PreroutingTerms(TermOf, n, port, iface, ip);
    TranslationMeans(Terms(ForwardRules(n, port, iface, ip)[0].spec), To(port.hostIP), Arriving(iface), "tcp", "tcp",
                     port.value, "DNAT", ip, port.to);
  }

  /** On the way through: new connections to the task's address and port are let pass. */
  lemma ForwardMeans(n: Names, port: Port, iface: string, ip: string)
    requires port.value >= 0 && port.to >= 0
    ensures var spec := ForwardRules(n, port, iface, ip)[1].spec;
            && Means(spec, Fate("ACCEPT", None))
            && forall p :: Takes(spec, p) <==>
                 p.destination == ip && p.protocol == "tcp" && p.state == "NEW" && p.port == port.to
  {
    TermOfReads();
    ForwardTerms(TermOf, n, port, iface, ip);
    AcceptanceMeans(Terms(ForwardRules(n, port, iface, ip)[1].spec), ip, "tcp", "state", "NEW", "tcp", port.to,
                    "ACCEPT");
  }

  /** On the way out: what the host sends from the loopback address to the port goes to the task too. */
  lemma OutputMeans(n: Names, port: Port, iface: string, dst: string, ip: string)
    requires port.value >= 0 && port.to >= 0
    ensures var spec := LoopbackRules(n, port, iface, dst, ip)[3].spec;
            && Means(spec, Fate("DNAT", Some((ip, port.to))))
            && forall p :: Takes(spec, p) <==>
                 p.source == port.hostIP && p.leavesBy == iface && p.protocol == "tcp" && p.port == port.value
  {
    TermOfReads();
    OutputTerms(TermOf, n, port, iface, dst, ip);
    TranslationMeans(Terms(LoopbackRules(n, port, iface, dst, ip)[3].spec), From(port.hostIP), Leaving(iface),
                     "tcp", "tcp", port.value, "DNAT", ip, port.to);
  }

  /** And what goes from the host to the task's device takes on that device's address. */
  lemma MasqueradeMeans(n: Names, port: Port, iface: string, dst: string, ip: string)
    ensures var spec := LoopbackRules(n, port, iface, dst, ip)[2].spec;
            && Means(spec, Fate("MASQUERADE", None))
            && forall p :: Takes(spec, p) <==>
                 p.leavesBy == dst && p.sourceType == "LOCAL" && p.destinationType == "UNICAST"
  {
    TermOfReads();
    MasqueradeTerms(TermOf, n, port, iface, dst, ip);
    DisguiseMeans(Terms(LoopbackRules(n, port, iface, dst, ip)[2].spec), dst, "addrtype", "LOCAL", "UNICAST",
                  "MASQUERADE");
  }
}
