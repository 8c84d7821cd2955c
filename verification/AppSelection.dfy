/** SupportedAppProtocol negotiation: which offer this SECC selects (src/secc.c). */
module AppSelection {
  import opened Messages

  const MAX_OFFERS: nat := 20
  const SUPPORTED_MAJOR: nat := 2
  const SUPPORTED_MINOR: nat := 0
  const MASK_DIN: bv32 := 1
  const MASK_ISO2: bv32 := 2

  /** needle occurs in haystack; the empty needle never does. */
  ghost predicate Occurs(haystack: string, needle: string) {
    needle != [] && exists i {:trigger haystack[i..]} :: 0 <= i <= |haystack| - |needle| && needle <= haystack[i..]
  }

  method NsContains(haystack: string, needle: string) returns (found: bool)
    ensures found <==> Occurs(haystack, needle)
  {
    if |needle| == 0 || |haystack| < |needle| { return false; }
    var i := 0;
    while i + |needle| <= |haystack|
      invariant 0 <= i <= |haystack| - |needle| + 1
      invariant forall k {:trigger haystack[k..]} :: 0 <= k < i ==> !(needle <= haystack[k..])
    {
      assert haystack[i..][..|needle|] == haystack[i..i + |needle|];
      if haystack[i..i + |needle|] == needle { return true; }
      i := i + 1;
    }
    return false;
  }

  /** The protocol an offer's namespace names; ISO 15118-2 is looked for first. */
  ghost function Named(ns: string): Protocol {
    if (Occurs(ns, "iso:15118:2") || Occurs(ns, "iso:15118-2")) && Occurs(ns, "2013") then Iso2
    else if Occurs(ns, "din:70121") then Din
    else UnknownProtocol
  }

  predicate Enabled(p: Protocol, mask: bv32) {
    match p
    case Din => mask & MASK_DIN != 0
    case Iso2 => mask & MASK_ISO2 != 0
    case _ => true
  }

  /** An offer both sides support. */
  ghost predicate Supported(o: Offer, mask: bv32) {
    Named(o.ns) != UnknownProtocol && Enabled(Named(o.ns), mask) && o.major == SUPPORTED_MAJOR
  }

  function Considered(offers: seq<Offer>): seq<Offer> {
    if |offers| > MAX_OFFERS then offers[..MAX_OFFERS] else offers
  }

  /** k is the first supported offer of minimal Priority (a lower value is preferred). */
  ghost predicate IsFirstBest(offers: seq<Offer>, mask: bv32, k: int) {
    && 0 <= k < |offers| && Supported(offers[k], mask)
    && (forall j :: 0 <= j < |offers| && Supported(offers[j], mask) ==>
          offers[k].priority <= offers[j].priority && (j < k ==> offers[k].priority < offers[j].priority))
  }

  ghost predicate NoneSupported(offers: seq<Offer>, mask: bv32) {
    forall j :: 0 <= j < |offers| ==> !Supported(offers[j], mask)
  }

  datatype SappCode = NoNegotiation | Negotiated | NegotiatedMinorDeviation

  datatype Selection = Selection(index: Option<nat>, protocol: Protocol, code: SappCode)

  /** What the negotiation must deliver: the first offer of minimal Priority among the supported ones
      within the decoder's array bound, UNKNOWN exactly when there is none. */
  ghost predicate Correct(all: seq<Offer>, mask: bv32, s: Selection) {
    var offers := Considered(all);
    match s.index
    case None => NoneSupported(offers, mask) && s.protocol == UnknownProtocol && s.code == NoNegotiation
    case Some(k) =>
      && IsFirstBest(offers, mask, k)
      && s.protocol == Named(offers[k].ns)
      && s.code == if offers[k].minor == SUPPORTED_MINOR then Negotiated else NegotiatedMinorDeviation
  }

  /** The specification pins the selection down completely. */
  lemma SelectionIsUnique(offers: seq<Offer>, mask: bv32, a: Selection, b: Selection)
    requires Correct(offers, mask, a) && Correct(offers, mask, b)
    ensures a == b
  {
    var o := Considered(offers);
    if a.index.Some? && b.index.Some? {
      var i, j := a.index.value, b.index.value;
      assert o[i].priority <= o[j].priority && o[j].priority <= o[i].priority;
    }
  }

  method OfferMatches(o: Offer, p: Protocol) returns (matches: bool)
    requires p in {Iso2, Din}
    ensures p == Iso2 ==> (matches <==> Named(o.ns) == Iso2)
    ensures p == Din ==> (matches <==> Occurs(o.ns, "din:70121"))
  {
    if p == Iso2 {
      var colon := NsContains(o.ns, "iso:15118:2");
      var dash := NsContains(o.ns, "iso:15118-2");
      var year := NsContains(o.ns, "2013");
      return (colon || dash) && year;
    }
    matches := NsContains(o.ns, "din:70121");
  }

  /** select_app_protocol: one pass keeping the best offer so far. */
  method SelectAppProtocol(all: seq<Offer>, mask: bv32) returns (s: Selection)
    ensures Correct(all, mask, s)
  {
    s := Selection(None, UnknownProtocol, NoNegotiation);
    var offers := Considered(all);
    var bestPriority: byte := 255;
    var i := 0;
    while i < |offers|
      invariant 0 <= i <= |offers|
      invariant s.index.None? ==>
        NoneSupported(offers[..i], mask) && s == Selection(None, UnknownProtocol, NoNegotiation)
      invariant s.index.Some? ==>
        && s.index.value < i
        && IsFirstBest(offers[..i], mask, s.index.value)
        && s.protocol == Named(offers[s.index.value].ns)
        && s.code == (if offers[s.index.value].minor == SUPPORTED_MINOR then Negotiated
                      else NegotiatedMinorDeviation)
        && bestPriority == offers[s.index.value].priority
    {
      var o := offers[i];
      assert offers[..i + 1] == offers[..i] + [o];
      i := i + 1;
      if s.index.Some? && o.priority >= bestPriority { continue; }
      var candidate := UnknownProtocol;
      var iso := OfferMatches(o, Iso2);
      if iso {
        candidate := Iso2;
      } else {
        var din := OfferMatches(o, Din);
        if din { candidate := Din; }
      }
      if candidate != UnknownProtocol && !Enabled(candidate, mask) { continue; }
      if candidate == UnknownProtocol || o.major != SUPPORTED_MAJOR { continue; }
      s := Selection(Some(i - 1), candidate,
                     if o.minor == SUPPORTED_MINOR then Negotiated else NegotiatedMinorDeviation);
      bestPriority := o.priority;
    }
    assert offers[..i] == offers;
  }

  /** Some correct selection always exists, so the negotiated protocol is a function of offers and mask. */
  ghost function Negotiate(all: seq<Offer>, mask: bv32): (s: Selection)
    ensures Correct(all, mask, s)
  {
    SelectionExists(all, mask);
    var s :| Correct(all, mask, s);
    s
  }

  /** What a single offer comes to, by its version number and the protocols enabled. */
  lemma SingleOffer(o: Offer, mask: bv32)
    ensures var p := Named(o.ns);
      Negotiate([o], mask) ==
        if p == UnknownProtocol || o.major != 2 || mask & (if p == Din then 1 else 2) == 0
        then Selection(None, UnknownProtocol, NoNegotiation)
        else Selection(Some(0), p, if o.minor == 0 then Negotiated else NegotiatedMinorDeviation)
  {
    OnlyTwoProtocols(o.ns);
    hide Named, Negotiate;
    var s := Negotiate([o], mask);
    assert Considered([o]) == [o];
    if s.index.None? { assert !Supported([o][0], mask); }
  }

  lemma OnlyTwoProtocols(ns: string)
    ensures Named(ns) in {UnknownProtocol, Iso2, Din}
  {
  }

  const ISO2_NAMESPACE: string := "urn:iso:15118:2:2013:MsgDef"
  const DIN_NAMESPACE: string := "urn:din:70121:2012:MsgDef"

  lemma IsoNamespace()
    ensures Named(ISO2_NAMESPACE) == Iso2
  {
    assert "iso:15118:2" <= ISO2_NAMESPACE[4..] && "2013" <= ISO2_NAMESPACE[16..];
  }

  lemma DinNamespace()
    ensures Named(DIN_NAMESPACE) == Din
  {
    assert "din:70121" <= DIN_NAMESPACE[4..];
    NoIsoIn(DIN_NAMESPACE);
  }

  /** No place in the DIN namespace starts like ISO 15118. */
  lemma NoIsoIn(din: string)
    requires din == DIN_NAMESPACE
    ensures !Occurs(din, "iso:15118:2") && !Occurs(din, "iso:15118-2")
  {
    assert |din| == 25;
    forall i | 0 <= i <= |din| - 3 ensures din[i] != 'i' || din[i + 1] != 's' {}
    forall i {:trigger din[i..]} | 0 <= i <= |din| - 11
      ensures !("iso:15118:2" <= din[i..]) && !("iso:15118-2" <= din[i..])
    {
      assert din[i..][0] == din[i] && din[i..][1] == din[i + 1];
      assert "iso:15118:2"[0] == 'i' && "iso:15118:2"[1] == 's';
      assert "iso:15118-2"[0] == 'i' && "iso:15118-2"[1] == 's';
    }
  }

  lemma {:induction false} FirstBestExists(offers: seq<Offer>, mask: bv32)
    ensures NoneSupported(offers, mask) || exists k :: IsFirstBest(offers, mask, k)
  {
    if offers != [] {
      var last := |offers| - 1;
      FirstBestExists(offers[..last], mask);
      if NoneSupported(offers[..last], mask) {
        assert forall j :: 0 <= j < last ==> offers[..last][j] == offers[j];
        if Supported(offers[last], mask) { assert IsFirstBest(offers, mask, last); }
      } else {
        var k :| IsFirstBest(offers[..last], mask, k);
        assert forall j :: 0 <= j < last ==> offers[..last][j] == offers[j];
        if Supported(offers[last], mask) && offers[last].priority < offers[k].priority {
          assert IsFirstBest(offers, mask, last);
        } else {
          assert IsFirstBest(offers, mask, k);
        }
      }
    }
  }

  lemma SelectionExists(all: seq<Offer>, mask: bv32)
    ensures exists s :: Correct(all, mask, s)
  {
    var offers := Considered(all);
    FirstBestExists(offers, mask);
    if NoneSupported(offers, mask) {
      assert Correct(all, mask, Selection(None, UnknownProtocol, NoNegotiation));
    } else {
      var k :| IsFirstBest(offers, mask, k);
      assert Correct(all, mask, Selection(Some(k), Named(offers[k].ns),
        if offers[k].minor == SUPPORTED_MINOR then Negotiated else NegotiatedMinorDeviation));
    }
  }
}
