/** The QEMU -netdev user value and the port forwards in it (internal/netx/netx.go). */
module Netdev {
  import opened Wrappers
  import opened Text
  import Decimal

  const LOOPBACK: string := "127.0.0.1"

  datatype Forward = Forward(hostPort: int, guestPort: int, proto: string)

  datatype ForwardError = BadProto | BadHostPort | BadGuestPort

  datatype NetdevError = EmptyId | InvalidId | BadForward(index: nat, cause: ForwardError)

  datatype Outcome<+T, +E> = Success(value: T) | Failure(error: E)

  function NormalizeProto(proto: string, fold: Fold): Option<string> {
    var p := Lower(TrimSpace(proto), fold);
    if p == "" || p == "tcp" then Some("tcp")
    else if p == "udp" then Some("udp")
    else None
  }

  predicate ValidPort(port: int) {
    1 <= port <= 65535
  }

  /** The normalized protocol, or what is wrong: the protocol first, then the host port, then the guest port. */
  function Validate(f: Forward, fold: Fold): Outcome<string, ForwardError> {
    var proto := NormalizeProto(f.proto, fold);
    if proto.None? then Failure(BadProto)
    else if !ValidPort(f.hostPort) then Failure(BadHostPort)
    else if !ValidPort(f.guestPort) then Failure(BadGuestPort)
    else Success(proto.value)
  }

  function Clause(proto: string, hostPort: int, guestPort: int): string {
    "hostfwd=" + proto + ":" + LOOPBACK + ":" + Decimal.Format(hostPort) + "-:" + Decimal.Format(guestPort)
  }

  function Hostfwd(f: Forward, fold: Fold): Outcome<string, ForwardError> {
    match Validate(f, fold)
    case Failure(e) => Failure(e)
    case Success(proto) => Success(Clause(proto, f.hostPort, f.guestPort))
  }

  /** The allowlist of the netdev id pattern. */
  predicate IdChar(c: char) {
    'A' <= c <= 'Z' || 'a' <= c <= 'z' || '0' <= c <= '9' || c == '_' || c == '-'
  }

  predicate IdMatches(id: string) {
    id != "" && forall c :: c in id ==> IdChar(c)
  }

  /** A forward as QEMU is told about it. */
  datatype Bound = Bound(proto: string, host: string, hostPort: int, guestPort: int)

  predicate ValidForward(f: Forward, fold: Fold) {
    Validate(f, fold).Success?
  }

  function Normalized(f: Forward, fold: Fold): Bound
    requires ValidForward(f, fold)
  {
    Bound(Validate(f, fold).value, LOOPBACK, f.hostPort, f.guestPort)
  }

  function AllNormalized(fwds: seq<Forward>, fold: Fold): (r: seq<Bound>)
    requires forall f :: f in fwds ==> ValidForward(f, fold)
    ensures |r| == |fwds| && forall i :: 0 <= i < |r| ==> r[i] == Normalized(fwds[i], fold)
  {
    seq(|fwds|, i requires 0 <= i < |fwds| => Normalized(fwds[i], fold))
  }

  function ClauseOf(b: Bound): string {
    Clause(b.proto, b.hostPort, b.guestPort)
  }

  function AllClauses(bounds: seq<Bound>): (clauses: seq<string>)
    ensures |clauses| == |bounds|
    ensures forall i :: 0 <= i < |bounds| ==> clauses[i] == ClauseOf(bounds[i])
  {
    seq(|bounds|, i requires 0 <= i < |bounds| => ClauseOf(bounds[i]))
  }

  /** Which forwards are accepted, and as what: no protocol or TCP counts as TCP, UDP as UDP, in any case. */
  lemma ForwardExactly(f: Forward, fold: Fold)
    ensures var text := Lower(TrimSpace(f.proto), fold);
      && (ValidForward(f, fold) <==>
            && (text == "" || text == "tcp" || text == "udp")
            && 1 <= f.hostPort <= 65535 && 1 <= f.guestPort <= 65535)
      && (ValidForward(f, fold) ==>
            Normalized(f, fold) ==
              Bound(if text == "udp" then "udp" else "tcp", "127.0.0.1", f.hostPort, f.guestPort))
  {
  }

  /** What is reported of a forward that is not accepted: the protocol before the ports, the host's first. */
  lemma RejectionExactly(f: Forward, fold: Fold)
    ensures var text := Lower(TrimSpace(f.proto), fold);
      var known := text == "" || text == "tcp" || text == "udp";
      && (Validate(f, fold) == Failure(BadProto) <==> !known)
      && (Validate(f, fold) == Failure(BadHostPort) <==> known && !(1 <= f.hostPort <= 65535))
      && (Validate(f, fold) == Failure(BadGuestPort) <==>
            known && 1 <= f.hostPort <= 65535 && !(1 <= f.guestPort <= 65535))
  {
  }

  lemma ClauseExactly(b: Bound)
    ensures ClauseOf(b) == "hostfwd=" + b.proto + ":" + "127.0.0.1" + ":" + Decimal.Format(b.hostPort) +
                           "-:" + Decimal.Format(b.guestPort)
  {
  }

  lemma CapitalsAre(c: char)
    ensures 'A' <= c <= 'Z' <==> c in "ABCDEFGHIJKLMNOPQRSTUVWXYZ"
  {
    assert 'A' <= c <= 'Z' ==> "ABCDEFGHIJKLMNOPQRSTUVWXYZ"[c as int - 'A' as int] == c;
  }

  lemma SmallLettersAre(c: char)
    ensures 'a' <= c <= 'z' <==> c in "abcdefghijklmnopqrstuvwxyz"
  {
    assert 'a' <= c <= 'z' ==> "abcdefghijklmnopqrstuvwxyz"[c as int - 'a' as int] == c;
  }

  /** The characters of an id: letters, digits, underscore and hyphen. */
  lemma IdCharExactly(c: char)
    ensures IdChar(c) <==>
            c in "ABCDEFGHIJKLMNOPQRSTUVWXYZ" || c in "abcdefghijklmnopqrstuvwxyz" || c in "0123456789" || c in "_-"
  {
    CapitalsAre(c);
    SmallLettersAre(c);
  }

  /** The ids that are accepted: one or more of these characters. */
  lemma IdMatchesExactly(id: string)
    ensures IdMatches(id) <==>
      && |id| > 0
      && forall c :: c in id ==>
           (|| c in "ABCDEFGHIJKLMNOPQRSTUVWXYZ" || c in "abcdefghijklmnopqrstuvwxyz"
            || c in "0123456789" || c in "_-")
  {
    forall c | c in id
      ensures IdChar(c) <==>
        c in "ABCDEFGHIJKLMNOPQRSTUVWXYZ" || c in "abcdefghijklmnopqrstuvwxyz" || c in "0123456789" || c in "_-"
    {
      IdCharExactly(c);
    }
  }

  lemma CapitalsAccepted(fold: Fold)
    ensures NormalizeProto("TCP", fold) == Some("tcp") && NormalizeProto(" Udp ", fold) == Some("udp")
  {
    assert Lower("TCP", fold) == "tcp" && Lower("Udp", fold) == "udp";
    assert AllSpaces("") && AllSpaces(" ");
    ProtoAccepted("", "TCP", "", fold);
    ProtoAccepted(" ", "Udp", " ", fold);
    assert "" + "TCP" + "" == "TCP" && " " + "Udp" + " " == " Udp ";
  }

  /** A protocol is known if it is one of the two names in any case, with spaces around it, or blank. */
  lemma ProtoAccepted(a: string, name: string, b: string, fold: Fold)
    requires AllSpaces(a) && AllSpaces(b) && Trimmed(name)
    ensures Lower(name, fold) == "tcp" || name == "" ==> NormalizeProto(a + name + b, fold) == Some("tcp")
    ensures Lower(name, fold) == "udp" ==> NormalizeProto(a + name + b, fold) == Some("udp")
    ensures NormalizeProto(a + name + b, fold).Some? ==>
              name == "" || Lower(name, fold) == "tcp" || Lower(name, fold) == "udp"
  {
    TrimPadded(a, name, b);
    assert Lower("", fold) == "";
  }

  /** The parts of the value in order. */
  function Parts(id: string, bounds: seq<Bound>): (parts: seq<string>)
    ensures |parts| == 2 + |bounds|
    ensures parts[0] == "user" && parts[1] == "id=" + id
    ensures forall i :: 0 <= i < |bounds| ==> parts[2 + i] == ClauseOf(bounds[i])
  {
    var clauses := AllClauses(bounds);
    assert forall i :: 0 <= i < |bounds| ==> (["user", "id=" + id] + clauses)[2 + i] == clauses[i];
    ["user", "id=" + id] + clauses
  }

  lemma HostfwdExactly(f: Forward, fold: Fold)
    ensures Hostfwd(f, fold) == if ValidForward(f, fold) then Success(ClauseOf(Normalized(f, fold)))
                                else Failure(Validate(f, fold).error)
  {
  }

  /** The loop over the forwards: their clauses in order, or the first bad one. */
  method Clauses(fwds: seq<Forward>, fold: Fold) returns (r: Outcome<seq<string>, NetdevError>)
    ensures r.Success? <==> forall f :: f in fwds ==> ValidForward(f, fold)
    ensures r.Success? ==>
      |r.value| == |fwds| && forall k :: 0 <= k < |fwds| ==> r.value[k] == ClauseOf(Normalized(fwds[k], fold))
    ensures r.Failure? ==> r.error.BadForward? && FirstBad(fwds, r.error.index, r.error.cause, fold)
  {
    var parts: seq<string> := [];
    for i := 0 to |fwds|
      invariant forall k :: 0 <= k < i ==> ValidForward(fwds[k], fold)
      invariant |parts| == i
      invariant forall k :: 0 <= k < i ==> parts[k] == ClauseOf(Normalized(fwds[k], fold))
    {
      var clause := Hostfwd(fwds[i], fold);
      HostfwdExactly(fwds[i], fold);
      if clause.Failure? {
        assert fwds[i] in fwds;
        return Failure(BadForward(i, clause.error));
      }
      assert ValidForward(fwds[i], fold) && clause.value == ClauseOf(Normalized(fwds[i], fold));
      parts := parts + [clause.value];
    }
    return Success(parts);
  }

  /** Forward `i` is the first invalid one, for this reason. */
  predicate FirstBad(fwds: seq<Forward>, i: nat, cause: ForwardError, fold: Fold) {
    && i < |fwds| && Validate(fwds[i], fold) == Failure(cause)
    && forall k :: 0 <= k < i ==> ValidForward(fwds[k], fold)
  }

  /**
   Succeeds exactly when the id matches and every forward is valid; otherwise the error is the
   id's, or the first bad forward's.
   */
  method BuildNetdev(id: string, fwds: seq<Forward>, fold: Fold) returns (r: Outcome<string, NetdevError>)
    ensures r.Success? <==> IdMatches(id) && forall f :: f in fwds ==> ValidForward(f, fold)
    ensures r.Success? ==> r.value == Join(Parts(id, AllNormalized(fwds, fold)), ",")
    ensures r.Failure? ==>
      match r.error
      case EmptyId => id == ""
      case InvalidId => id != "" && !IdMatches(id)
      case BadForward(i, cause) => IdMatches(id) && FirstBad(fwds, i, cause, fold)
  {
    if id == "" {
      return Failure(EmptyId);
    }
    if !IdMatches(id) {
      return Failure(InvalidId);
    }
    var clauses := Clauses(fwds, fold);
    if clauses.Failure? {
      return Failure(clauses.error);
    }
    var parts := ["user", "id=" + id] + clauses.value;
    assert parts == Parts(id, AllNormalized(fwds, fold));
    return Success(Join(parts, ","));
  }

  // ----- reading the value back -----

  function StripPrefix(s: string, prefix: string): Option<string> {
    if prefix <= s then Some(s[|prefix|..]) else None
  }

  /** proto, address, host port, guest port */
  function ReadClause(s: string): Option<Bound> {
    match StripPrefix(s, "hostfwd=")
    case None => None
    case Some(rest) =>
      match Cut(rest, ':')
      case None => None
      case Some(p) =>
        match Cut(p.1, ':')
        case None => None
        case Some(h) =>
          match Cut(h.1, '-')
          case None => None
          case Some(g) => ReadPorts(p.0, h.0, g.0, g.1)
  }

  function ReadPorts(proto: string, host: string, hostPort: string, guest: string): Option<Bound> {
    match StripPrefix(guest, ":")
    case None => None
    case Some(guestPort) =>
      match (Decimal.Parse(hostPort), Decimal.Parse(guestPort))
      case (Some(hp), Some(gp)) => Some(Bound(proto, host, hp, gp))
      case (_, _) => None
  }

  function ReadClauses(parts: seq<string>): Option<seq<Bound>> {
    if parts == [] then Some([])
    else
      match (ReadClause(parts[0]), ReadClauses(parts[1..]))
      case (Some(b), Some(rest)) => Some([b] + rest)
      case (_, _) => None
  }

  /** The id and the forwards of a -netdev user value. */
  function ReadNetdev(value: string): Option<(string, seq<Bound>)> {
    var parts := Split(value, ',');
    if |parts| < 2 || parts[0] != "user" then None
    else
      match (StripPrefix(parts[1], "id="), ReadClauses(parts[2..]))
      case (Some(id), Some(bounds)) => Some((id, bounds))
      case (_, _) => None
  }

  /** What normalization guarantees of a forward. */
  predicate WellBound(b: Bound) {
    (b.proto == "tcp" || b.proto == "udp") && b.host == LOOPBACK && ValidPort(b.hostPort) && ValidPort(b.guestPort)
  }

  lemma NormalizedWellBound(f: Forward, fold: Fold)
    requires ValidForward(f, fold)
    ensures WellBound(Normalized(f, fold))
  {
  }

  lemma ProtoPlain(proto: string)
    requires proto == "tcp" || proto == "udp"
    ensures ':' !in proto && ',' !in proto
  {
    if proto == "tcp" {
      assert proto == ['t', 'c', 'p'];
    } else {
      assert proto == ['u', 'd', 'p'];
    }
  }

  lemma PortPlain(port: int)
    requires ValidPort(port)
    ensures ':' !in Decimal.Format(port) && ',' !in Decimal.Format(port) && '-' !in Decimal.Format(port)
  {
    assert Decimal.Format(port) == Decimal.Digits(port);
  }

  lemma LoopbackPlain()
    ensures ':' !in LOOPBACK && ',' !in LOOPBACK
  {
  }

  lemma ReadPortsBack(b: Bound)
    requires WellBound(b)
    ensures ReadPorts(b.proto, b.host, Decimal.Format(b.hostPort), ":" + Decimal.Format(b.guestPort)) == Some(b)
  {
    Decimal.ParseOfFormat(b.hostPort);
    Decimal.ParseOfFormat(b.guestPort);
    assert (":" + Decimal.Format(b.guestPort))[1..] == Decimal.Format(b.guestPort);
  }

  /** Four fields, of which the first two hold no ':' and the third no '-', are cut apart again. */
  lemma FieldsCut(proto: string, host: string, hostPort: string, guest: string)
    requires ':' !in proto && ':' !in host && '-' !in hostPort
    ensures ReadClause("hostfwd=" + (proto + [':'] + (host + [':'] + (hostPort + ['-'] + guest)))) ==
            ReadPorts(proto, host, hostPort, guest)
  {
    var rest := proto + [':'] + (host + [':'] + (hostPort + ['-'] + guest));
    assert ("hostfwd=" + rest)[|"hostfwd="|..] == rest;
    CutAt(proto, ':', host + [':'] + (hostPort + ['-'] + guest));
    CutAt(host, ':', hostPort + ['-'] + guest);
    CutAt(hostPort, '-', guest);
  }

  lemma FieldsRegroup(head: string, proto: string, host: string, hostPort: string, guestPort: string)
    ensures head + proto + ":" + host + ":" + hostPort + "-:" + guestPort ==
            head + (proto + [':'] + (host + [':'] + (hostPort + ['-'] + (":" + guestPort))))
  {
  }

  lemma ClauseHoldsNoComma(b: Bound)
    requires WellBound(b)
    ensures ',' !in ClauseOf(b)
  {
    ProtoPlain(b.proto);
    PortPlain(b.hostPort);
    PortPlain(b.guestPort);
    LoopbackPlain();
  }

  /** A printed clause reads back, and the host address it carries is the loopback address. */
  lemma ReadClauseBack(b: Bound)
    requires WellBound(b)
    ensures ReadClause(ClauseOf(b)) == Some(b)
    ensures ',' !in ClauseOf(b)
  {
    var hp, guest := Decimal.Format(b.hostPort), ":" + Decimal.Format(b.guestPort);
    ProtoPlain(b.proto);
    PortPlain(b.hostPort);
    LoopbackPlain();
    FieldsCut(b.proto, LOOPBACK, hp, guest);
    FieldsRegroup("hostfwd=", b.proto, LOOPBACK, hp, Decimal.Format(b.guestPort));
    ReadPortsBack(b);
    ClauseHoldsNoComma(b);
  }

  ghost predicate EachReads(parts: seq<string>, bounds: seq<Bound>) {
    |parts| == |bounds| && forall i :: 0 <= i < |bounds| ==> ReadClause(parts[i]) == Some(bounds[i])
  }

  lemma ReadOneMore(part: string, rest: seq<string>, b: Bound, bounds: seq<Bound>)
    requires ReadClause(part) == Some(b) && ReadClauses(rest) == Some(bounds)
    ensures ReadClauses([part] + rest) == Some([b] + bounds)
  {
    assert ([part] + rest)[1..] == rest;
  }

  lemma {:induction false} ReadClausesBack(bounds: seq<Bound>, parts: seq<string>)
    requires EachReads(parts, bounds)
    ensures ReadClauses(parts) == Some(bounds)
  {
    if bounds != [] {
      ReadClausesBack(bounds[1..], parts[1..]);
      ReadOneMore(parts[0], parts[1..], bounds[0], bounds[1..]);
      assert parts == [parts[0]] + parts[1..] && bounds == [bounds[0]] + bounds[1..];
    }
  }

  lemma PartsRead(id: string, bounds: seq<Bound>)
    requires forall b :: b in bounds ==> WellBound(b)
    ensures EachReads(Parts(id, bounds)[2..], bounds)
  {
    forall i | 0 <= i < |bounds| ensures ReadClause(Parts(id, bounds)[2..][i]) == Some(bounds[i]) {
      assert bounds[i] in bounds;
      ReadClauseBack(bounds[i]);
    }
  }

  lemma PartsHoldNoComma(id: string, bounds: seq<Bound>)
    requires IdMatches(id) && forall b :: b in bounds ==> WellBound(b)
    ensures forall p :: p in Parts(id, bounds) ==> ',' !in p
  {
    var parts := Parts(id, bounds);
    forall i | 0 <= i < |parts| ensures ',' !in parts[i] {
      if i >= 2 {
        assert bounds[i - 2] in bounds;
        ReadClauseBack(bounds[i - 2]);
      }
    }
  }

  lemma NormalizedAt(fwds: seq<Forward>, i: nat, fold: Fold)
    requires i < |fwds| && forall f :: f in fwds ==> ValidForward(f, fold)
    ensures AllNormalized(fwds, fold)[i] ==
      Bound(if Lower(TrimSpace(fwds[i].proto), fold) == "udp" then "udp" else "tcp", "127.0.0.1",
            fwds[i].hostPort, fwds[i].guestPort)
  {
    assert fwds[i] in fwds;
    ForwardExactly(fwds[i], fold);
  }

  lemma RoundTrip(id: string, fwds: seq<Forward>, fold: Fold)
    requires IdMatches(id) && forall f :: f in fwds ==> ValidForward(f, fold)
    ensures var bounds := AllNormalized(fwds, fold);
      var value := Join(Parts(id, bounds), ",");
      && Split(value, ',') == Parts(id, bounds)
      && ReadNetdev(value) == Some((id, bounds))
      && forall b :: b in bounds ==> WellBound(b)
  {
    var bounds := AllNormalized(fwds, fold);
    forall b | b in bounds ensures WellBound(b) {
      var i :| 0 <= i < |bounds| && bounds[i] == b;
      assert fwds[i] in fwds;
      NormalizedWellBound(fwds[i], fold);
    }
    var parts := Parts(id, bounds);
    PartsHoldNoComma(id, bounds);
    SplitOfJoin(parts, ',');
    PartsRead(id, bounds);
    ReadClausesBack(bounds, parts[2..]);
    assert parts[1][|"id="|..] == id;
  }

  /**
   Splitting a built value at commas gives exactly its 2 + |fwds| parts, and reading it gives the
   id and the normalized forwards in order, each bound to the loopback address.
   */
  lemma NetdevRoundTrip(id: string, fwds: seq<Forward>, fold: Fold)
    requires IdMatches(id) && forall f :: f in fwds ==> ValidForward(f, fold)
    ensures var bounds := AllNormalized(fwds, fold);
      var value := Join(Parts(id, bounds), ",");
      && Split(value, ',') == Parts(id, bounds)
      && ReadNetdev(value) == Some((id, bounds))
      && (forall b :: b in bounds ==> WellBound(b))
      && |bounds| == |fwds|
      && forall i :: 0 <= i < |fwds| ==>
           (bounds[i] ==
            Bound(if Lower(TrimSpace(fwds[i].proto), fold) == "udp" then "udp" else "tcp", "127.0.0.1",
                  fwds[i].hostPort, fwds[i].guestPort))
  {
    RoundTrip(id, fwds, fold);
    var bounds := AllNormalized(fwds, fold);
    forall i | 0 <= i < |fwds|
      ensures bounds[i] ==
        Bound(if Lower(TrimSpace(fwds[i].proto), fold) == "udp" then "udp" else "tcp", "127.0.0.1",
              fwds[i].hostPort, fwds[i].guestPort)
    {
      NormalizedAt(fwds, i, fold);
    }
  }

  /** Two calls that print the same value had the same id and the same forwards up to normalization. */
  lemma NetdevInjective(id: string, fwds: seq<Forward>, id': string, fwds': seq<Forward>, fold: Fold)
    requires IdMatches(id) && forall f :: f in fwds ==> ValidForward(f, fold)
    requires IdMatches(id') && forall f :: f in fwds' ==> ValidForward(f, fold)
    requires Join(Parts(id, AllNormalized(fwds, fold)), ",") == Join(Parts(id', AllNormalized(fwds', fold)), ",")
    ensures id == id' && AllNormalized(fwds, fold) == AllNormalized(fwds', fold)
  {
    NetdevRoundTrip(id, fwds, fold);
    NetdevRoundTrip(id', fwds', fold);
  }
}
