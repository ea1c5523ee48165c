/**
 * `getSuitableLocalIpAddress`, shared by the two RTMP publishers: pick the IPv4 address to
 * advertise. Interfaces that are down, loopback or virtual are skipped; an address qualifies when it
 * is not loopback, is site-local and is written as a dotted quad. The first qualifying address on an
 * interface named "en...", "eth..." or "wlan..." wins at once; otherwise the first qualifying address
 * seen, then the local host's address, then "localhost".
 *
 * The interface enumeration is an input: `None` when listing the interfaces throws, otherwise the
 * interfaces in enumeration order, each with its addresses in order.
 */
module LocalIp {
  import opened Wrappers
  import opened Text

  datatype InetAddress = InetAddress(hostAddress: string, isLoopback: bool, isSiteLocal: bool)

  datatype NetworkInterface = NetworkInterface(
    displayName: string,
    isUp: bool,
    isLoopback: bool,
    isVirtual: bool,
    addresses: seq<InetAddress>)

  /** A qualifying address, with whether its interface is a preferred one. */
  datatype Candidate = Candidate(address: string, preferred: bool)

  // ---------------------------------------------------------------------------------------------
  // The pattern \d{1,3}\.\d{1,3}\.\d{1,3}\.\d{1,3}, matched against the whole string
  // ---------------------------------------------------------------------------------------------

  /** The length of the run of digits at the start of `s`. */
  function DigitRun(s: string): (n: nat)
    ensures n <= |s|
  {
    if s == [] || !IsDigit(s[0]) then 0 else 1 + DigitRun(s[1..])
  }

  /** The run is all digits, and whatever follows it is not a digit. */
  lemma {:induction false} DigitRunIsMaximal(s: string)
    ensures forall i :: 0 <= i < DigitRun(s) ==> IsDigit(s[i])
    ensures DigitRun(s) < |s| ==> !IsDigit(s[DigitRun(s)])
  {
    if s != [] && IsDigit(s[0]) {
      DigitRunIsMaximal(s[1..]);
      forall i | 0 <= i < DigitRun(s) ensures IsDigit(s[i]) {
        if i > 0 { assert s[i] == s[1..][i - 1]; }
      }
    }
  }

  /**
   * `s` is `groups` groups of one to three digits separated by single dots. A group cannot stop
   * inside a run of digits (a dot or the end must follow it), so it is the whole leading run.
   */
  predicate DigitGroups(s: string, groups: nat)
    requires groups >= 1
    decreases groups
  {
    var n := DigitRun(s);
    1 <= n <= 3 &&
    if groups == 1 then n == |s|
    else n < |s| && s[n] == '.' && DigitGroups(s[n + 1..], groups - 1)
  }

  /** `hostAddress.matches("\\d{1,3}\\.\\d{1,3}\\.\\d{1,3}\\.\\d{1,3}")` */
  predicate IsDottedQuad(s: string) {
    DigitGroups(s, 4)
  }

  predicate AllDigits(s: string) {
    forall i :: 0 <= i < |s| ==> IsDigit(s[i])
  }

  /** A matched string has only digits and dots, exactly `groups - 1` dots, and a length that fits. */
  lemma {:induction false} DigitGroupsShape(s: string, groups: nat)
    requires groups >= 1 && DigitGroups(s, groups)
    ensures forall i :: 0 <= i < |s| ==> IsDigit(s[i]) || s[i] == '.'
    ensures multiset(s)['.'] == groups - 1
    ensures 2 * groups - 1 <= |s| <= 4 * groups - 1
    decreases groups
  {
    var n := DigitRun(s);
    DigitRunIsMaximal(s);
    assert '.' !in s[..n];
    if groups == 1 {
      assert s == s[..n];
    } else {
      var rest := s[n + 1..];
      DigitGroupsShape(rest, groups - 1);
      assert s == s[..n] + ['.'] + rest;
      assert multiset(s) == multiset(s[..n]) + multiset(['.']) + multiset(rest);
      forall i | 0 <= i < |s|
        ensures IsDigit(s[i]) || s[i] == '.'
      {
        if i > n {
          assert s[i] == rest[i - n - 1];
        }
      }
    }
  }

  /** Every dotted quad has exactly three dots, only digits besides, and 7 to 15 characters. */
  lemma DottedQuadShape(s: string)
    requires IsDottedQuad(s)
    ensures forall i :: 0 <= i < |s| ==> IsDigit(s[i]) || s[i] == '.'
    ensures multiset(s)['.'] == 3
    ensures 7 <= |s| <= 15
  {
    DigitGroupsShape(s, 4);
  }

  /** A run of digits followed by anything that does not start with a digit is exactly the leading run. */
  lemma {:induction false} DigitRunOfGroup(a: string, rest: string)
    requires AllDigits(a)
    requires rest == [] || !IsDigit(rest[0])
    ensures DigitRun(a + rest) == |a|
  {
    if a != [] {
      assert (a + rest)[1..] == a[1..] + rest;
      DigitRunOfGroup(a[1..], rest);
    } else {
      assert a + rest == rest;
    }
  }

  /** One more group of one to three digits in front of a match, joined by a dot, is again a match. */
  lemma DigitGroupsPrepend(a: string, rest: string, groups: nat)
    requires AllDigits(a) && 1 <= |a| <= 3
    requires groups >= 1 && DigitGroups(rest, groups)
    ensures DigitGroups(a + "." + rest, groups + 1)
  {
    var s := a + "." + rest;
    DigitRunOfGroup(a, "." + rest);
    assert s == a + ("." + rest);
    assert s[|a| + 1..] == rest;
  }

  /** Any four groups of one to three digits joined by dots form a dotted quad. */
  lemma DottedQuadOfGroups(a: string, b: string, c: string, d: string)
    requires AllDigits(a) && AllDigits(b) && AllDigits(c) && AllDigits(d)
    requires 1 <= |a| <= 3 && 1 <= |b| <= 3 && 1 <= |c| <= 3 && 1 <= |d| <= 3
    ensures IsDottedQuad(a + "." + b + "." + c + "." + d)
  {
    DigitRunOfGroup(d, []);
    assert d + [] == d;
    var cd := c + "." + d;
    var bcd := b + "." + cd;
    DigitGroupsPrepend(c, d, 1);
    DigitGroupsPrepend(b, cd, 2);
    DigitGroupsPrepend(a, bcd, 3);
    JoinRegroups(a, b, c, d);
  }

  /** A match of two or more groups is a leading group of one to three digits, a dot, and a match of the rest. */
  lemma DigitGroupsHead(s: string, groups: nat) returns (a: string, rest: string)
    requires groups >= 2 && DigitGroups(s, groups)
    ensures AllDigits(a) && 1 <= |a| <= 3
    ensures DigitGroups(rest, groups - 1)
    ensures s == a + "." + rest
  {
    var n := DigitRun(s);
    DigitRunIsMaximal(s);
    a, rest := s[..n], s[n + 1..];
    assert s == s[..n] + [s[n]] + s[n + 1..];
  }

  /** A single group is one to three digits. */
  lemma DigitGroupsLast(s: string)
    requires DigitGroups(s, 1)
    ensures AllDigits(s) && 1 <= |s| <= 3
  {
    DigitRunIsMaximal(s);
  }

  /** Conversely, every dotted quad is four groups of one to three digits joined by dots. */
  lemma DottedQuadGroups(s: string) returns (a: string, b: string, c: string, d: string)
    requires IsDottedQuad(s)
    ensures AllDigits(a) && AllDigits(b) && AllDigits(c) && AllDigits(d)
    ensures 1 <= |a| <= 3 && 1 <= |b| <= 3 && 1 <= |c| <= 3 && 1 <= |d| <= 3
    ensures s == a + "." + b + "." + c + "." + d
  {
    var bcd, cd;
    a, bcd := DigitGroupsHead(s, 4);
    b, cd := DigitGroupsHead(bcd, 3);
    c, d := DigitGroupsHead(cd, 2);
    DigitGroupsLast(d);
    JoinRegroups(a, b, c, d);
  }

  lemma JoinRegroups(a: string, b: string, c: string, d: string)
    ensures a + "." + (b + "." + (c + "." + d)) == a + "." + b + "." + c + "." + d
  {
  }

  // ---------------------------------------------------------------------------------------------
  // The selection rule
  // ---------------------------------------------------------------------------------------------

  /** Interfaces that are down, loopback or virtual are skipped. */
  predicate Usable(ni: NetworkInterface) {
    ni.isUp && !ni.isLoopback && !ni.isVirtual
  }

  /** Wired and wireless interfaces by their usual names. */
  predicate Preferred(ni: NetworkInterface) {
    StartsWith(ni.displayName, "en") || StartsWith(ni.displayName, "eth") || StartsWith(ni.displayName, "wlan")
  }

  /** An address qualifies when it is not loopback, is site-local and is a dotted quad. */
  predicate Qualifies(a: InetAddress) {
    !a.isLoopback && a.isSiteLocal && IsDottedQuad(a.hostAddress)
  }

  /** The qualifying addresses among `addrs`, in order, tagged with the interface's preference. */
  function AddressCandidates(addrs: seq<InetAddress>, preferred: bool): seq<Candidate> {
    if addrs == [] then []
    else
      var last := addrs[|addrs| - 1];
      AddressCandidates(addrs[..|addrs| - 1], preferred) +
      (if Qualifies(last) then [Candidate(last.hostAddress, preferred)] else [])
  }

  /** What one interface contributes: nothing when it is skipped. */
  function InterfaceCandidates(ni: NetworkInterface): seq<Candidate> {
    if Usable(ni) then AddressCandidates(ni.addresses, Preferred(ni)) else []
  }

  /** All candidates, in enumeration order. */
  function Candidates(nis: seq<NetworkInterface>): seq<Candidate> {
    if nis == [] then [] else Candidates(nis[..|nis| - 1]) + InterfaceCandidates(nis[|nis| - 1])
  }

  /** The first candidate on a preferred interface. */
  function FirstPreferred(cs: seq<Candidate>): Option<string> {
    if cs == [] then None
    else if cs[0].preferred then Some(cs[0].address)
    else FirstPreferred(cs[1..])
  }

  /**
   * The address the selection yields: the first preferred candidate, else the first candidate,
   * else the local host's address (`localHost`, `None` when looking it up throws), else "localhost".
   */
  function SelectAddress(interfaces: Option<seq<NetworkInterface>>, localHost: Option<string>): string {
    match interfaces
    case None => "localhost"
    case Some(nis) =>
      var cs := Candidates(nis);
      match FirstPreferred(cs)
      case Some(a) => a
      case None =>
        if cs != [] then cs[0].address
        else match localHost
          case Some(h) => h
          case None => "localhost"
  }

  lemma {:induction false} FirstPreferredAppend(a: seq<Candidate>, b: seq<Candidate>)
    ensures FirstPreferred(a + b) == if FirstPreferred(a).Some? then FirstPreferred(a) else FirstPreferred(b)
  {
    if a != [] {
      assert (a + b)[1..] == a[1..] + b;
      FirstPreferredAppend(a[1..], b);
    } else {
      assert a + b == b;
    }
  }

  lemma {:induction false} AddressCandidatesAppend(a: seq<InetAddress>, b: seq<InetAddress>, preferred: bool)
    ensures AddressCandidates(a + b, preferred) == AddressCandidates(a, preferred) + AddressCandidates(b, preferred)
    decreases |b|
  {
    if b == [] {
      assert a + b == a;
    } else {
      var b' := b[..|b| - 1];
      assert (a + b)[..|a + b| - 1] == a + b';
      AddressCandidatesAppend(a, b', preferred);
    }
  }

  lemma {:induction false} CandidatesAppend(a: seq<NetworkInterface>, b: seq<NetworkInterface>)
    ensures Candidates(a + b) == Candidates(a) + Candidates(b)
    decreases |b|
  {
    if b == [] {
      assert a + b == a;
    } else {
      var b', last := b[..|b| - 1], b[|b| - 1];
      assert (a + b)[..|a + b| - 1] == a + b';
      assert (a + b)[|a + b| - 1] == last;
      CandidatesAppend(a, b');
      calc {
        Candidates(a + b);
        Candidates(a + b') + InterfaceCandidates(last);
        (Candidates(a) + Candidates(b')) + InterfaceCandidates(last);
        Candidates(a) + (Candidates(b') + InterfaceCandidates(last));
        Candidates(a) + Candidates(b);
      }
    }
  }

  /**
   * The method as the source writes it: one pass over the interfaces and their addresses,
   * returning at the first qualifying address of a preferred interface and collecting the others.
   */
  method SuitableLocalIpAddress(interfaces: Option<seq<NetworkInterface>>, localHost: Option<string>)
    returns (ip: string)
    ensures ip == SelectAddress(interfaces, localHost)
  {
    if interfaces.None? {
      return "localhost";
    }
    var nis := interfaces.value;
    var candidateIps: seq<string> := [];
    ghost var seen: seq<Candidate> := [];
    for i := 0 to |nis|
      invariant seen == Candidates(nis[..i])
      invariant FirstPreferred(seen) == None
      invariant |candidateIps| == |seen|
      invariant candidateIps != [] ==> candidateIps[0] == seen[0].address
    {
      var ni := nis[i];
      CandidatesStep(nis, i);
      if Usable(ni) {
        var preferred := Preferred(ni);
        ghost var here: seq<Candidate> := [];
        for j := 0 to |ni.addresses|
          invariant here == AddressCandidates(ni.addresses[..j], preferred)
          invariant FirstPreferred(here) == None
          invariant |candidateIps| == |seen| + |here|
          invariant candidateIps != [] ==> candidateIps[0] == (seen + here)[0].address
        {
          var a := ni.addresses[j];
          ghost var added := AddressCandidates([a], preferred);
          AddressCandidatesStep(ni.addresses, j, preferred);
          if Qualifies(a) {
            if preferred {
              PreferredHitIsSelected(nis, i, j, seen, here, localHost);
              return a.hostAddress;
            }
            candidateIps := candidateIps + [a.hostAddress];
          }
          FirstPreferredAppend(here, added);
          here := here + added;
        }
        assert ni.addresses[..|ni.addresses|] == ni.addresses;
        FirstPreferredAppend(seen, here);
        seen := seen + here;
      } else {
        assert seen + [] == seen;
      }
    }
    assert nis[..|nis|] == nis;
    if candidateIps != [] {
      return candidateIps[0];
    }
    match localHost {
      case Some(h) => return h;
      case None => return "localhost";
    }
  }

  /** One more interface extends the candidates by that interface's own contribution. */
  lemma CandidatesStep(nis: seq<NetworkInterface>, i: nat)
    requires i < |nis|
    ensures Candidates(nis[..i + 1]) == Candidates(nis[..i]) + InterfaceCandidates(nis[i])
  {
    assert nis[..i + 1][..i] == nis[..i];
  }

  /** One more address extends an interface's candidates by that address's own contribution. */
  lemma AddressCandidatesStep(addrs: seq<InetAddress>, j: nat, preferred: bool)
    requires j < |addrs|
    ensures AddressCandidates(addrs[..j + 1], preferred) ==
            AddressCandidates(addrs[..j], preferred) + AddressCandidates([addrs[j]], preferred)
    ensures AddressCandidates([addrs[j]], preferred) ==
            if Qualifies(addrs[j]) then [Candidate(addrs[j].hostAddress, preferred)] else []
  {
    assert addrs[..j + 1] == addrs[..j] + [addrs[j]];
    AddressCandidatesAppend(addrs[..j], [addrs[j]], preferred);
    assert [addrs[j]][..0] == [];
  }

  /** An interface's candidates, split at its address `j`. */
  lemma AddressCandidatesSplit(addrs: seq<InetAddress>, j: nat, preferred: bool)
    requires j < |addrs|
    ensures AddressCandidates(addrs, preferred) ==
            AddressCandidates(addrs[..j + 1], preferred) + AddressCandidates(addrs[j + 1..], preferred)
  {
    assert addrs == addrs[..j + 1] + addrs[j + 1..];
    AddressCandidatesAppend(addrs[..j + 1], addrs[j + 1..], preferred);
  }

  /** All candidates, split at interface `i`. */
  lemma CandidatesSplit(nis: seq<NetworkInterface>, i: nat)
    requires i < |nis|
    ensures Candidates(nis) == Candidates(nis[..i]) + InterfaceCandidates(nis[i]) + Candidates(nis[i + 1..])
  {
    var front, after := nis[..i + 1], nis[i + 1..];
    assert nis == front + after;
    CandidatesAppend(front, after);
    assert front[..|front| - 1] == nis[..i] && front[|front| - 1] == nis[i];
    assert Candidates(front) == Candidates(nis[..i]) + InterfaceCandidates(nis[i]);
  }

  /** The early return in the inner loop yields exactly what the selection rule says. */
  lemma PreferredHitIsSelected(nis: seq<NetworkInterface>, i: nat, j: nat, seen: seq<Candidate>, here: seq<Candidate>,
                               localHost: Option<string>)
    requires i < |nis| && j < |nis[i].addresses|
    requires Usable(nis[i]) && Preferred(nis[i]) && Qualifies(nis[i].addresses[j])
    requires seen == Candidates(nis[..i]) && FirstPreferred(seen) == None
    requires here == AddressCandidates(nis[i].addresses[..j], true) && FirstPreferred(here) == None
    ensures SelectAddress(Some(nis), localHost) == nis[i].addresses[j].hostAddress
  {
    var addrs := nis[i].addresses;
    var hit := [Candidate(addrs[j].hostAddress, true)];
    var upToHit := AddressCandidates(addrs[..j + 1], true);
    var ifaceRest := AddressCandidates(addrs[j + 1..], true);
    AddressCandidatesStep(addrs, j, true);
    FirstPreferredAppend(here, hit);
    AddressCandidatesSplit(addrs, j, true);
    FirstPreferredAppend(upToHit, ifaceRest);
    var iface := InterfaceCandidates(nis[i]);
    assert FirstPreferred(iface) == Some(addrs[j].hostAddress);
    CandidatesSplit(nis, i);
    FirstPreferredAppend(seen, iface);
    FirstPreferredAppend(seen + iface, Candidates(nis[i + 1..]));
  }

  /**
   * A skipped interface (down, loopback or virtual) contributes nothing: removing it from the
   * enumeration never changes the selected address.
   */
  lemma SkippedInterfaceIsIgnored(before: seq<NetworkInterface>, ni: NetworkInterface,
                                  after: seq<NetworkInterface>, localHost: Option<string>)
    requires !Usable(ni)
    ensures SelectAddress(Some(before + [ni] + after), localHost) == SelectAddress(Some(before + after), localHost)
  {
    CandidatesAppend(before + [ni], after);
    CandidatesAppend(before, [ni]);
    CandidatesAppend(before, after);
    assert Candidates([ni]) == [] by {
      assert [ni][..0] == [];
    }
    assert Candidates(before) + [] == Candidates(before);
  }

  /**
   * Preference beats order: when some candidate sits on a preferred interface, the result is the
   * first such candidate, even if non-preferred candidates were enumerated before it.
   */
  lemma {:induction false} PreferredCandidateWins(cs: seq<Candidate>, k: nat)
    requires k < |cs| && cs[k].preferred
    ensures FirstPreferred(cs).Some?
    ensures exists m :: 0 <= m <= k && cs[m].preferred && FirstPreferred(cs) == Some(cs[m].address) &&
                        forall p :: 0 <= p < m ==> !cs[p].preferred
  {
    if cs[0].preferred {
      assert FirstPreferred(cs) == Some(cs[0].address);
    } else {
      PreferredCandidateWins(cs[1..], k - 1);
      var m :| 0 <= m <= k - 1 && cs[1..][m].preferred && FirstPreferred(cs[1..]) == Some(cs[1..][m].address) &&
               forall p :: 0 <= p < m ==> !cs[1..][p].preferred;
      assert forall p :: 0 <= p < m + 1 ==> !cs[p].preferred by {
        forall p | 0 <= p < m + 1 ensures !cs[p].preferred {
          if p > 0 { assert cs[p] == cs[1..][p - 1]; }
        }
      }
    }
  }

  /** Candidates none of which is preferred give no preferred hit. */
  lemma {:induction false} NoPreferredHit(cs: seq<Candidate>)
    requires forall k :: 0 <= k < |cs| ==> !cs[k].preferred
    ensures FirstPreferred(cs) == None
  {
    if cs != [] {
      NoPreferredHit(cs[1..]);
    }
  }

  /**
   * With no preferred candidate anywhere, the first candidate in enumeration order is chosen; with
   * no candidate at all, the local host's address, else "localhost".
   */
  lemma NoPreferredMeansFirst(nis: seq<NetworkInterface>, localHost: Option<string>)
    requires forall k :: 0 <= k < |Candidates(nis)| ==> !Candidates(nis)[k].preferred
    ensures Candidates(nis) != [] ==> SelectAddress(Some(nis), localHost) == Candidates(nis)[0].address
    ensures Candidates(nis) == [] ==>
              SelectAddress(Some(nis), localHost) == (if localHost.Some? then localHost.value else "localhost")
  {
    NoPreferredHit(Candidates(nis));
  }

  /** Every candidate is a qualifying address of a usable interface, tagged with that interface's preference. */
  lemma {:induction false} CandidatesQualify(nis: seq<NetworkInterface>)
    ensures forall c :: c in Candidates(nis) ==>
              IsDottedQuad(c.address) &&
              exists ni :: ni in nis && Usable(ni) && Preferred(ni) == c.preferred &&
                           exists a :: a in ni.addresses && Qualifies(a) && a.hostAddress == c.address
  {
    if nis != [] {
      var init := nis[..|nis| - 1];
      var ni := nis[|nis| - 1];
      CandidatesQualify(init);
      forall c | c in InterfaceCandidates(ni)
        ensures IsDottedQuad(c.address) && Usable(ni) && Preferred(ni) == c.preferred &&
                exists a :: a in ni.addresses && Qualifies(a) && a.hostAddress == c.address
      {
        AddressCandidatesQualify(ni.addresses, Preferred(ni), c);
      }
      forall c | c in Candidates(nis)
        ensures IsDottedQuad(c.address) &&
                exists ni :: ni in nis && Usable(ni) && Preferred(ni) == c.preferred &&
                             exists a :: a in ni.addresses && Qualifies(a) && a.hostAddress == c.address
      {
        if c in Candidates(init) {
          var n' :| n' in init && Usable(n') && Preferred(n') == c.preferred &&
                    exists a :: a in n'.addresses && Qualifies(a) && a.hostAddress == c.address;
          assert n' in nis;
        } else {
          assert c in InterfaceCandidates(ni);
          assert ni in nis;
        }
      }
    }
  }

  lemma {:induction false} AddressCandidatesQualify(addrs: seq<InetAddress>, preferred: bool, c: Candidate)
    requires c in AddressCandidates(addrs, preferred)
    ensures c.preferred == preferred && IsDottedQuad(c.address)
    ensures exists a :: a in addrs && Qualifies(a) && a.hostAddress == c.address
  {
    var init := addrs[..|addrs| - 1];
    var last := addrs[|addrs| - 1];
    if c in AddressCandidates(init, preferred) {
      AddressCandidatesQualify(init, preferred, c);
      var a :| a in init && Qualifies(a) && a.hostAddress == c.address;
      assert a in addrs;
    } else {
      assert Qualifies(last) && c == Candidate(last.hostAddress, preferred);
    }
  }

  /**
   * What can come out: an address on a usable interface that qualifies, or, only when no
   * address anywhere qualifies, the local host's address or "localhost".
   */
  lemma SelectedAddressQualifies(interfaces: Option<seq<NetworkInterface>>, localHost: Option<string>)
    ensures var ip := SelectAddress(interfaces, localHost);
            (interfaces.Some? && Candidates(interfaces.value) != [] &&
             IsDottedQuad(ip) &&
             exists ni :: ni in interfaces.value && Usable(ni) &&
                          exists a :: a in ni.addresses && Qualifies(a) && a.hostAddress == ip) ||
            ((interfaces.None? || Candidates(interfaces.value) == []) &&
             (ip == "localhost" || Some(ip) == localHost))
  {
    if interfaces.Some? {
      var cs := Candidates(interfaces.value);
      CandidatesQualify(interfaces.value);
      if cs != [] {
        var ip := SelectAddress(interfaces, localHost);
        var c: Candidate;
        if FirstPreferred(cs).Some? {
          c := FirstPreferredIn(cs);
        } else {
          c := cs[0];
        }
        assert c in cs && c.address == ip;
      }
    }
  }

  /** The first preferred candidate is one of the candidates. */
  lemma {:induction false} FirstPreferredIn(cs: seq<Candidate>) returns (c: Candidate)
    requires FirstPreferred(cs).Some?
    ensures c in cs && c.preferred && c.address == FirstPreferred(cs).value
  {
    if cs[0].preferred {
      c := cs[0];
    } else {
      c := FirstPreferredIn(cs[1..]);
    }
  }
}
