/** Classification of literal-IP hosts into one bucket
    (packages/core/src/detectors/ip-classification.ts), for any table contents. */
module IpClassification {
  import opened Wrappers
  import opened Texts
  import opened Numerals
  import opened Ipv4
  import opened Ipv6
  import opened Ipv6Analysis
  import opened Ipv6Spellings
  import opened IpRanges

  datatype Endpoint = Endpoint(address: string, provider: string)

  datatype Tables = Tables(v4: seq<Row<nat>>, v6: seq<Row<seq<nat>>>, endpoints: seq<Endpoint>)

  datatype Bucket = Metadata(provider: string) | Range(range: RangeMatch)

  datatype Classification = Classification(bucket: Bucket, shown: string, canonical: string, embeddedVia: Option<string>)

  // ---------- the metadata maps, keyed by the parsed address ----------

  datatype MetadataMaps = MetadataMaps(v4: map<nat, Endpoint>, v6: map<string, Endpoint>)

  function AddEndpoint(maps: MetadataMaps, e: Endpoint): MetadataMaps {
    if Ipv4Value(e.address).Some? then maps.(v4 := maps.v4[Ipv4Value(e.address).value := e])
    else if AnalyzeIpv6(e.address).Some? then maps.(v6 := maps.v6[AnalyzeIpv6(e.address).value.canonical := e])
    else maps
  }

  function BuildMaps(endpoints: seq<Endpoint>): MetadataMaps {
    if endpoints == [] then MetadataMaps(map[], map[])
    else AddEndpoint(BuildMaps(endpoints[..|endpoints| - 1]), endpoints[|endpoints| - 1])
  }

  /** The load-time loop; a row that does not parse is skipped. */
  method LoadMetadata(endpoints: seq<Endpoint>) returns (maps: MetadataMaps)
    ensures maps == BuildMaps(endpoints)
  {
    hide Ipv4Value, AnalyzeIpv6, AnalyzeIpv4;
    maps := MetadataMaps(map[], map[]);
    for k := 0 to |endpoints|
      invariant maps == BuildMaps(endpoints[..k])
    {
      assert endpoints[..k + 1][..k] == endpoints[..k];
      var e := endpoints[k];
      var v4 := AnalyzeIpv4Host(e.address);
      ValueOfAnalysis(e.address);
      if v4.Some? {
        var n := DottedToInt(v4.value.canonical);
        maps := maps.(v4 := maps.v4[n := e]);
        continue;
      }
      var v6 := AnalyzeIpv6Host(e.address);
      if v6.Some? {
        maps := maps.(v6 := maps.v6[v6.value.canonical := e]);
      }
    }
    assert endpoints[..|endpoints|] == endpoints;
  }

  /** The dotted reader recovers the value from the canonical form of an analysis. */
  lemma ValueOfAnalysis(host: string)
    ensures AnalyzeIpv4(host).Some? <==> Ipv4Value(host).Some?
    ensures AnalyzeIpv4(host).Some? ==>
      var parts := Split(AnalyzeIpv4(host).value.canonical, '.');
      && (forall i :: 0 <= i < |parts| ==> AllDigits(parts[i], 10))
      && DottedValue(parts) % LIMIT == Ipv4Value(host).value
      && AnalyzeIpv4(host).value.canonical == ToDotted(Ipv4Value(host).value)
  {
    hide ToDotted, Split, ParsedHost;
    if Ipv4Value(host).Some? {
      DottedToIntInverts(Ipv4Value(host).value);
    }
  }

  // ---------- the same tables, on bits ----------

  /** The last row whose address denotes this 32-bit value. */
  function Endpoint4(endpoints: seq<Endpoint>, n: nat): Option<Endpoint> {
    if endpoints == [] then None else
      var e := endpoints[|endpoints| - 1];
      if Ipv4Value(e.address) == Some(n) then Some(e) else Endpoint4(endpoints[..|endpoints| - 1], n)
  }

  /** The last row, not an IPv4 one, whose address denotes these groups. */
  function Endpoint6(endpoints: seq<Endpoint>, g: seq<nat>): Option<Endpoint> {
    if endpoints == [] then None else
      var e := endpoints[|endpoints| - 1];
      if Ipv4Value(e.address).None? && DecodeIpv6(e.address) == Some(g) then Some(e)
      else Endpoint6(endpoints[..|endpoints| - 1], g)
  }

  lemma {:induction false} MapsOnBits4(endpoints: seq<Endpoint>, n: nat)
    ensures n in BuildMaps(endpoints).v4 <==> Endpoint4(endpoints, n).Some?
    ensures n in BuildMaps(endpoints).v4 ==> Some(BuildMaps(endpoints).v4[n]) == Endpoint4(endpoints, n)
  {
    hide Ipv4Value, AnalyzeIpv6;
    if endpoints != [] {
      MapsOnBits4(endpoints[..|endpoints| - 1], n);
    }
  }

  /** Keyed by canonical text, the map is keyed by bits: canonical forms are injective. */
  lemma {:induction false} MapsOnBits6(endpoints: seq<Endpoint>, g: seq<nat>)
    requires IsAddress(g)
    ensures Canonical(g) in BuildMaps(endpoints).v6 <==> Endpoint6(endpoints, g).Some?
    ensures Canonical(g) in BuildMaps(endpoints).v6 ==> Some(BuildMaps(endpoints).v6[Canonical(g)]) == Endpoint6(endpoints, g)
  {
    hide Ipv4Value, DecodeIpv6, Canonical, IsObfuscated, UnwrapLow32;
    if endpoints != [] {
      MapsOnBits6(endpoints[..|endpoints| - 1], g);
      var e := endpoints[|endpoints| - 1];
      if DecodeIpv6(e.address).Some? {
        DecodedIsAddress(e.address);
        if Canonical(DecodeIpv6(e.address).value) == Canonical(g) {
          CanonicalInjective(DecodeIpv6(e.address).value, g);
        }
      }
    }
  }

  // ---------- classification ----------

  function Classify4(t: Tables, maps: MetadataMaps, dotted: string): Option<Bucket>
    requires forall i :: 0 <= i < |Split(dotted, '.')| ==> AllDigits(Split(dotted, '.')[i], 10)
  {
    var n := DottedValue(Split(dotted, '.')) % LIMIT;
    if n in maps.v4 then Some(Metadata(maps.v4[n].provider))
    else if MatchIpv4(t.v4, n).Some? then Some(Range(MatchIpv4(t.v4, n).value))
    else None
  }

  function Classify6(t: Tables, maps: MetadataMaps, canonical: string): Option<Bucket> {
    var c := Lower(canonical);
    if c in maps.v6 then Some(Metadata(maps.v6[c].provider))
    else
      var h := HextetsOf(c);
      if h.None? then None
      else if MatchIpv6(t.v6, h.value).Some? then Some(Range(MatchIpv6(t.v6, h.value).value))
      else None
  }

  ghost predicate TablesOk(t: Tables) {
    forall i :: 0 <= i < |t.v6| ==> |t.v6[i].base| == 8 && t.v6[i].prefix <= 128
  }

  /** The classifier on text: parse, canonicalize, and look up what was printed. */
  method ClassifyHost(t: Tables, maps: MetadataMaps, host: string) returns (r: Option<Classification>)
    requires TablesOk(t) && maps == BuildMaps(t.endpoints)
    ensures r == ClassifyBits(t, host)
  {
    hide Ipv4Value, DecodeIpv6, ToDotted, Canonical, UnwrapLow32, IsObfuscated, BuildMaps, Split, Bits4, Bits6;
    if host == "" {
      EmptyHost();
      return None;
    }
    var ip4 := AnalyzeIpv4Host(host);
    ValueOfAnalysis(host);
    if ip4.Some? {
      OnBits4(t, Ipv4Value(host).value);
      var b := Classify4(t, maps, ip4.value.canonical);
      return if b.Some? then Some(Classification(b.value, host, ip4.value.canonical, None)) else None;
    }
    var ip6 := AnalyzeIpv6Host(host);
    if ip6.Some? {
      DecodedIsAddress(host);
      var g := DecodeIpv6(host).value;
      if ip6.value.embedded.Some? {
        Embedded32(g);
        OnBits4(t, Low32(g));
        var b := Classify4(t, maps, ip6.value.embedded.value.address);
        if b.Some? {
          return Some(Classification(b.value, "[" + host + "]", ip6.value.embedded.value.address, Some(ip6.value.embedded.value.mechanism)));
        }
      }
      OnBits6(t, g);
      var b := Classify6(t, maps, ip6.value.canonical);
      if b.Some? {
        return Some(Classification(b.value, "[" + host + "]", ip6.value.canonical, None));
      }
    }
    return None;
  }

  lemma EmptyHost()
    ensures Ipv4Value("").None? && DecodeIpv6("").None?
  {
    assert StripTrailingRootDot("") == "" && Split("", '.') == [""];
    assert ParsePart("").None?;
    assert ParseParts([""]).None? by {
      assert ParsePart([""][0]).None?;
    }
  }

  lemma Embedded32(g: seq<nat>)
    requires IsAddress(g) && UnwrapLow32(g).Some?
    ensures UnwrapLow32(g).value.address == ToDotted(Low32(g)) && Low32(g) < LIMIT
  {
    EmbeddedAddress(g, LOW32_WRAPPERS, 0);
  }

  // ---------- the verdict on bits ----------

  /** What a 32-bit address is: a metadata endpoint, else the longest matching range. */
  function Bits4(t: Tables, n: nat): Option<Bucket> {
    if Endpoint4(t.endpoints, n).Some? then Some(Metadata(Endpoint4(t.endpoints, n).value.provider))
    else if MatchIpv4(t.v4, n).Some? then Some(Range(MatchIpv4(t.v4, n).value))
    else None
  }

  function Bits6(t: Tables, g: seq<nat>): Option<Bucket> {
    if Endpoint6(t.endpoints, g).Some? then Some(Metadata(Endpoint6(t.endpoints, g).value.provider))
    else if MatchIpv6(t.v6, g).Some? then Some(Range(MatchIpv6(t.v6, g).value))
    else None
  }

  /** Classification by decoded bits: no canonical text is parsed or compared. */
  function ClassifyBits(t: Tables, host: string): Option<Classification> {
    if Ipv4Value(host).Some? then
      var n := Ipv4Value(host).value;
      if Bits4(t, n).Some? then Some(Classification(Bits4(t, n).value, host, ToDotted(n), None)) else None
    else if DecodeIpv6(host).Some? then
      var g := DecodeIpv6(host).value;
      var inner := UnwrapLow32(g);
      if inner.Some? && Bits4(t, Low32(g)).Some? then
        Some(Classification(Bits4(t, Low32(g)).value, "[" + host + "]", inner.value.address, Some(inner.value.mechanism)))
      else if Bits6(t, g).Some? then Some(Classification(Bits6(t, g).value, "[" + host + "]", Canonical(g), None))
      else None
    else None
  }

  lemma OnBits4(t: Tables, n: nat)
    requires n < LIMIT
    ensures forall i :: 0 <= i < |Split(ToDotted(n), '.')| ==> AllDigits(Split(ToDotted(n), '.')[i], 10)
    ensures Classify4(t, BuildMaps(t.endpoints), ToDotted(n)) == Bits4(t, n)
  {
    hide ToDotted, Split, BuildMaps, MatchIpv4, Endpoint4;
    DottedToIntInverts(n);
    MapsOnBits4(t.endpoints, n);
  }

  lemma OnBits6(t: Tables, g: seq<nat>)
    requires IsAddress(g)
    ensures Classify6(t, BuildMaps(t.endpoints), Canonical(g)) == Bits6(t, g)
  {
    hide Canonical, BuildMaps, MatchIpv6, Endpoint6, HextetsOf, Lower;
    CanonicalIsLower(g);
    HextetsOfCanonical(g);
    MapsOnBits6(t.endpoints, g);
  }

  function BucketOf(c: Option<Classification>): Option<Bucket> {
    if c.Some? then Some(c.value.bucket) else None
  }

  /** Two spellings of the same bits land in the same bucket, with the same canonical address
      and wrapper, whatever the tables hold. */
  lemma SpellingDoesNotMatter(t: Tables, a: string, b: string)
    requires Ipv4Value(a) == Ipv4Value(b) && DecodeIpv6(a) == DecodeIpv6(b)
    ensures BucketOf(ClassifyBits(t, a)) == BucketOf(ClassifyBits(t, b))
    ensures ClassifyBits(t, a).Some? ==>
      && ClassifyBits(t, a).value.canonical == ClassifyBits(t, b).value.canonical
      && ClassifyBits(t, a).value.embeddedVia == ClassifyBits(t, b).value.embeddedVia
  {
    hide Bits4, Bits6, ToDotted, Canonical, UnwrapLow32, Ipv4Value, DecodeIpv6;
  }

  /** A host is read in at most one way. */
  lemma OneReading(host: string)
    ensures !(Ipv4Value(host).Some? && DecodeIpv6(host).Some?)
  {
    hide Ipv4Value, CountDouble, IndexOfDouble, ParseHextets;
    ValueOfAnalysis(host);
    if Ipv4Value(host).Some? {
      NoColon(host);
    }
  }

  /** A wrapper never hides what it wraps: any spelling of a wrapped address earns the bucket
      that the bare dotted text of the embedded address earns, and only when that earns none
      does the address itself decide. */
  lemma WrapperNeverSuppresses(t: Tables, host: string, g: seq<nat>)
    requires DecodeIpv6(host) == Some(g) && UnwrapLow32(g).Some?
    ensures var bare := BucketOf(ClassifyBits(t, UnwrapLow32(g).value.address));
      BucketOf(ClassifyBits(t, host)) == if bare.Some? then bare else Bits6(t, g)
  {
    hide Bits4, Bits6, ToDotted, Canonical, UnwrapLow32, Ipv4Value, AnalyzeIpv4, DecodeIpv6;
    DecodedIsAddress(host);
    OneReading(host);
    Embedded32(g);
    Ipv4.CanonicalIsFixpoint(Low32(g));
  }

  /** Any two spellings of an IPv6 address, in any case, land in the same bucket. */
  lemma SpellingsShareBucket(t: Tables, g: seq<nat>, a: string, first: Spelling6, b: string, second: Spelling6)
    requires IsAddress(g) && Spells(g, first) && Spells(g, second)
    requires UpToCase(a, Text6(g, first)) && UpToCase(b, Text6(g, second))
    ensures DecodeIpv6(a) == Some(g) && DecodeIpv6(b) == Some(g)
    ensures BucketOf(ClassifyBits(t, a)) == BucketOf(ClassifyBits(t, b))
  {
    hide ClassifyBits, Ipv4Value, DecodeIpv6, UpToCase, Text6;
    DecodesExactly(a, g);
    DecodesExactly(b, g);
    OneReading(a);
    OneReading(b);
    SpellingDoesNotMatter(t, a, b);
  }
}
