// The advertised service list and its byte format.
module Services {
  import opened Bytes

  const MAX_SERVICE_NAME: nat := 64

  datatype Service = Service(name: seq<byte>, host: seq<byte>, port: nat)

  datatype Listing = Listed(services: seq<Service>) | Refused

  predicate Fits(s: Service) {
    |s.name| <= MAX_SERVICE_NAME && |s.host| <= 0xFFFF && 1 <= s.port <= 0xFFFF
  }

  predicate AllFit(services: seq<Service>) {
    forall i :: 0 <= i < |services| ==> Fits(services[i])
  }

  function EncodeEntry(s: Service): seq<byte> {
    BigEndian(|s.name|, 1) + s.name + BigEndian(|s.host|, 2) + s.host + BigEndian(s.port, 2)
  }

  function EncodeEntries(services: seq<Service>): seq<byte> {
    if services == [] then [] else EncodeEntry(services[0]) + EncodeEntries(services[1..])
  }

  function Encode(services: seq<Service>): seq<byte> {
    BigEndian(|services|, 2) + EncodeEntries(services)
  }

  datatype Entry = Entry(service: Service, rest: seq<byte>) | BadEntry

  // The first entry of what is left of a payload.
  function DecodeEntry(s: seq<byte>): Entry {
    if s == [] then BadEntry
    else
      var n := s[0];
      if n > MAX_SERVICE_NAME || 1 + n + 2 > |s| then BadEntry
      else
        var h := FromBigEndian(s[1 + n..3 + n]);
        if 3 + n + h + 2 > |s| then BadEntry
        else
          var port := FromBigEndian(s[3 + n + h..5 + n + h]);
          if port < 1 || port > 65535 then BadEntry
          else Entry(Service(s[1..1 + n], s[3 + n..3 + n + h], port), s[5 + n + h..])
  }

  function DecodeEntries(s: seq<byte>, count: nat): Listing {
    if count == 0 then if s == [] then Listed([]) else Refused
    else
      match DecodeEntry(s)
      case BadEntry => Refused
      case Entry(service, rest) =>
        match DecodeEntries(rest, count - 1)
        case Refused => Refused
        case Listed(services) => Listed([service] + services)
  }

  function Decode(payload: seq<byte>): Listing {
    if |payload| < 2 then Refused
    else DecodeEntries(payload[2..], FromBigEndian(payload[..2]))
  }

  // ---- Mutual inverses -----------------------------------------------------

  lemma EntryRoundTrip(s: Service, rest: seq<byte>)
    requires Fits(s)
    ensures DecodeEntry(EncodeEntry(s) + rest) == Entry(s, rest)
  {
    Widths();
    var e := EncodeEntry(s) + rest;
    var n, h := |s.name|, |s.host|;
    OneByte(n);
    DecodeInvertsEncode(h, 2);
    DecodeInvertsEncode(s.port, 2);
    assert e[0] == n;
    assert e[1..1 + n] == s.name;
    assert e[1 + n..3 + n] == BigEndian(h, 2);
    assert e[3 + n..3 + n + h] == s.host;
    assert e[3 + n + h..5 + n + h] == BigEndian(s.port, 2);
    assert e[5 + n + h..] == rest;
  }

  lemma OneByte(n: nat)
    requires n < 256
    ensures BigEndian(n, 1) == [n]
  {
    assert BigEndian(n / 256, 0) == [];
  }

  // Where the parts of an accepted entry lie.
  lemma EntryParts(s: seq<byte>)
    requires DecodeEntry(s).Entry?
    ensures var Entry(service, rest) := DecodeEntry(s);
            var n, h := |service.name|, |service.host|;
            && Fits(service) && 5 + n + h <= |s|
            && BigEndian(n, 1) == s[..1] && service.name == s[1..1 + n]
            && BigEndian(h, 2) == s[1 + n..3 + n] && service.host == s[3 + n..3 + n + h]
            && BigEndian(service.port, 2) == s[3 + n + h..5 + n + h] && rest == s[5 + n + h..]
  {
    hide BigEndian, FromBigEndian;
    Widths();
    var n, h := |DecodeEntry(s).service.name|, |DecodeEntry(s).service.host|;
    OneByte(n);
    EncodeInvertsDecode(s[1 + n..3 + n]);
    EncodeInvertsDecode(s[3 + n + h..5 + n + h]);
  }

  lemma EntryBack(s: seq<byte>)
    requires DecodeEntry(s).Entry?
    ensures Fits(DecodeEntry(s).service)
    ensures EncodeEntry(DecodeEntry(s).service) + DecodeEntry(s).rest == s
    ensures |DecodeEntry(s).rest| < |s|
  {
    hide BigEndian, DecodeEntry;
    EntryParts(s);
    var n, h := |DecodeEntry(s).service.name|, |DecodeEntry(s).service.host|;
    CutAtFive(s, 1, 1 + n, 3 + n, 3 + n + h, 5 + n + h);
  }

  lemma CutAtFive(s: seq<byte>, a: nat, b: nat, c: nat, d: nat, e: nat)
    requires a <= b <= c <= d <= e <= |s|
    ensures s == s[..a] + s[a..b] + s[b..c] + s[c..d] + s[d..e] + s[e..]
  {
    assert s[..e] == s[..d] + s[d..e];
    assert s[..d] == s[..c] + s[c..d];
    assert s[..c] == s[..b] + s[b..c];
  }

  lemma {:induction false} EntriesRoundTrip(services: seq<Service>)
    requires AllFit(services)
    ensures DecodeEntries(EncodeEntries(services), |services|) == Listed(services)
  {
    hide DecodeEntry, EncodeEntry;
    if services != [] {
      EntryRoundTrip(services[0], EncodeEntries(services[1..]));
      EntriesRoundTrip(services[1..]);
      assert services == [services[0]] + services[1..];
    }
  }

  lemma {:induction false} EntriesBack(s: seq<byte>, count: nat)
    requires DecodeEntries(s, count).Listed?
    ensures var services := DecodeEntries(s, count).services;
            |services| == count && AllFit(services) && EncodeEntries(services) == s
    decreases count
  {
    hide DecodeEntry, EncodeEntry;
    if count > 0 {
      EntryBack(s);
      EntriesBack(DecodeEntry(s).rest, count - 1);
      var services := DecodeEntries(s, count).services;
      assert services[1..] == DecodeEntries(DecodeEntry(s).rest, count - 1).services;
    }
  }

  // Every payload that is accepted is the encoding of the list read from it.
  lemma EncodeInvertsServices(payload: seq<byte>)
    requires Decode(payload).Listed?
    ensures var services := Decode(payload).services;
            AllFit(services) && |services| <= 0xFFFF && Encode(services) == payload
  {
    Widths();
    EntriesBack(payload[2..], FromBigEndian(payload[..2]));
    EncodeInvertsDecode(payload[..2]);
    assert payload == payload[..2] + payload[2..];
  }

  // A list is read back as it was exactly when its names, hosts, ports and
  // length fit their fields.
  lemma DecodeInvertsServices(services: seq<Service>)
    ensures Decode(Encode(services)) == Listed(services) <==> AllFit(services) && |services| <= 0xFFFF
  {
    if AllFit(services) && |services| <= 0xFFFF {
      Widths();
      DecodeInvertsEncode(|services|, 2);
      EntriesRoundTrip(services);
      assert Encode(services)[..2] == BigEndian(|services|, 2);
      assert Encode(services)[2..] == EncodeEntries(services);
    } else if Decode(Encode(services)) == Listed(services) {
      EncodeInvertsServices(Encode(services));
    }
  }

  // ---- The loops -----------------------------------------------------------

  method DecodeServices(payload: seq<byte>) returns (listing: Listing)
    ensures listing == Decode(payload)
  {
    if |payload| < 2 {
      return Refused;
    }
    var count := FromBigEndian(payload[..2]);
    var services: seq<Service> := [];
    var offset, i := 2, 0;
    while i < count
      invariant 0 <= i <= count && 2 <= offset <= |payload|
      invariant Decode(payload) == Prepend(services, DecodeEntries(payload[offset..], count - i))
    {
      var service, next, ok := DecodeOne(payload, offset);
      if !ok {
        return Refused;
      }
      PrependOne(services, service, DecodeEntries(payload[next..], count - i - 1));
      services := services + [service];
      offset := next;
      i := i + 1;
    }
    assert services + [] == services;
    if offset != |payload| {
      return Refused;
    }
    listing := Listed(services);
  }

  // One round of the loop: the entry at `offset`, and where the next one starts.
  method DecodeOne(payload: seq<byte>, offset: nat) returns (service: Service, next: nat, ok: bool)
    requires offset <= |payload|
    ensures match DecodeEntry(payload[offset..])
            case BadEntry => !ok
            case Entry(decoded, rest) => ok && service == decoded && next <= |payload| && payload[next..] == rest
  {
    ghost var s := payload[offset..];
    service, next, ok := Service([], [], 0), offset, false;
    if next >= |payload| {
      return;
    }
    var n := payload[next];
    next := next + 1;
    if n > MAX_SERVICE_NAME || next + n + 2 > |payload| {
      return;
    }
    var name := payload[next..next + n];
    next := next + n;
    var h := FromBigEndian(payload[next..next + 2]);
    assert payload[next..next + 2] == s[1 + n..3 + n];
    next := next + 2;
    if next + h + 2 > |payload| {
      return;
    }
    var host := payload[next..next + h];
    next := next + h;
    var port := FromBigEndian(payload[next..next + 2]);
    assert payload[next..next + 2] == s[3 + n + h..5 + n + h];
    next := next + 2;
    if port < 1 || port > 65535 {
      return;
    }
    service, ok := Service(name, host, port), true;
    assert name == s[1..1 + n] && host == s[3 + n..3 + n + h] && payload[next..] == s[5 + n + h..];
  }

  function Prepend(services: seq<Service>, listing: Listing): Listing {
    if listing.Refused? then Refused else Listed(services + listing.services)
  }

  lemma PrependOne(services: seq<Service>, service: Service, listing: Listing)
    ensures Prepend(services + [service], listing) == Prepend(services, Prepend([service], listing))
  {
    if listing.Listed? {
      assert services + [service] + listing.services == services + ([service] + listing.services);
    }
  }

  lemma {:induction false} EntriesAppend(services: seq<Service>, s: Service)
    ensures EncodeEntries(services + [s]) == EncodeEntries(services) + EncodeEntry(s)
  {
    if services == [] {
      assert [s][1..] == [];
    } else {
      assert (services + [s])[1..] == services[1..] + [s];
      EntriesAppend(services[1..], s);
    }
  }

  lemma Regroup(before: seq<byte>, a: seq<byte>, b: seq<byte>, c: seq<byte>, d: seq<byte>, e: seq<byte>)
    ensures before + a + b + c + d + e == before + (a + b + c + d + e)
  {}

  method EncodeServices(services: seq<Service>) returns (payload: seq<byte>)
    ensures payload == Encode(services)
  {
    payload := BigEndian(|services|, 2);
    var i := 0;
    while i < |services|
      invariant 0 <= i <= |services|
      invariant payload == BigEndian(|services|, 2) + EncodeEntries(services[..i])
    {
      hide BigEndian, EncodeEntries;
      var service := services[i];
      ghost var before := payload;
      payload := payload + BigEndian(|service.name|, 1);
      payload := payload + service.name;
      payload := payload + BigEndian(|service.host|, 2);
      payload := payload + service.host;
      payload := payload + BigEndian(service.port, 2);
      Regroup(before, BigEndian(|service.name|, 1), service.name, BigEndian(|service.host|, 2), service.host, BigEndian(service.port, 2));
      assert services[..i + 1] == services[..i] + [service];
      EntriesAppend(services[..i], service);
      assert payload == BigEndian(|services|, 2) + (EncodeEntries(services[..i]) + EncodeEntry(service));
      i := i + 1;
    }
    assert services[..i] == services;
  }
}
