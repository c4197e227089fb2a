/**
 When two move paths match in shape, said of places alone: the same projections lead
 somewhere below both, as far as no callable environment hides what comes after.
 */
module TransferShapes {
  import opened Wrappers
  import opened CleanupPlan
  import opened MovePaths
  import opened Checks

  /** The projections `w` lead from `p` to a path. */
  predicate Leads(f: seq<MovePath>, p: nat, w: seq<Projection>)
    requires p < |f|
  {
    exists q :: 0 <= q < |f| && f[q].place == Place(f[p].place.local, f[p].place.projections + w)
  }

  /** Behind `w` come the captures of a callable environment. */
  ghost predicate Hides(f: seq<MovePath>, p: nat, w: seq<Projection>)
    requires p < |f|
  {
    exists c :: Leads(f, p, w + [Capture(c)])
  }

  /** Nothing before the end of `w` is hidden, on either side. */
  ghost predicate InView(f: seq<MovePath>, s: nat, d: nat, w: seq<Projection>)
    requires s < |f| && d < |f|
  {
    forall k | 0 <= k < |w| :: !Hides(f, s, w[..k]) && !Hides(f, d, w[..k])
  }

  /* ----- children and places ----- */

  /** One projection leads to a child with that label. */
  lemma LeadsToKid(f: Forest, p: nat, x: Projection)
    requires p < |f|
    ensures Leads(f, p, [x]) <==> exists k :: k in Kids(f, p) && Label(f, k) == Some(x)
  {
    if Leads(f, p, [x]) {
      var q :| 0 <= q < |f| && f[q].place == Place(f[p].place.local, f[p].place.projections + [x]);
      assert ParentOk(f, q);
      ParentFacts(f, q);
      var a := f[q].parent.value;
      assert f[a].place.projections == f[p].place.projections;
      assert f[a].place == f[p].place;
      assert q in Kids(f, p) && Label(f, q) == Some(x);
    }
    if k :| k in Kids(f, p) && Label(f, k) == Some(x) {
      KidFacts(f, p, k);
      ParentFacts(f, k);
      assert f[k].place == Place(f[p].place.local, f[p].place.projections + [x]);
    }
  }

  lemma LeadsThroughKid(f: Forest, p: nat, k: nat, x: Projection, w: seq<Projection>)
    requires p < |f| && k in Kids(f, p) && Label(f, k) == Some(x)
    ensures k < |f| && (Leads(f, p, [x] + w) <==> Leads(f, k, w))
  {
    KidFacts(f, p, k);
    ParentFacts(f, k);
    assert f[p].place.projections + ([x] + w) == f[k].place.projections + w;
  }

  /** What leads somewhere leads through all places before. */
  lemma {:induction false} LeadsBefore(f: Forest, p: nat, w: seq<Projection>, k: nat)
    requires p < |f| && Leads(f, p, w) && k <= |w|
    ensures Leads(f, p, w[..k])
    decreases |w| - k
  {
    if k == |w| {
      assert w[..k] == w;
    } else {
      LeadsBefore(f, p, w, k + 1);
      var q :| 0 <= q < |f| && f[q].place == Place(f[p].place.local, f[p].place.projections + w[..k + 1]);
      assert ParentOk(f, q);
      var a := f[q].parent.value;
      assert f[a].place.projections == f[p].place.projections + w[..k] by {
        assert (f[p].place.projections + w[..k + 1])[..|f[p].place.projections + w[..k + 1]| - 1]
            == f[p].place.projections + w[..k];
      }
      assert f[a].place == Place(f[p].place.local, f[p].place.projections + w[..k]);
    }
  }

  /** Only environments hide. */
  lemma HidesEnvironment(f: Forest, p: nat)
    requires p < |f|
    ensures Hides(f, p, []) <==> IsEnvironment(f, p)
  {
    if Hides(f, p, []) {
      var c :| Leads(f, p, [] + [Capture(c)]);
      assert [] + [Capture(c)] == [Capture(c)];
      LeadsToKid(f, p, Capture(c));
      var k :| k in Kids(f, p) && Label(f, k) == Some(Capture(c));
      KidLabel(f, p, k);
      forall j | j in Kids(f, p) ensures IsCapture(f, j) {
        KidLabel(f, p, j);
        assert SiblingsAgree(f, k, j);
      }
    }
    if IsEnvironment(f, p) {
      var k :| k in Kids(f, p);
      KidLabel(f, p, k);
      assert IsCapture(f, k);
      var c := Last(f, k).capture;
      LeadsToKid(f, p, Capture(c));
      assert [] + [Capture(c)] == [Capture(c)];
    }
  }

  lemma HidesThroughKid(f: Forest, p: nat, k: nat, x: Projection, w: seq<Projection>)
    requires p < |f| && k in Kids(f, p) && Label(f, k) == Some(x)
    ensures k < |f| && (Hides(f, p, [x] + w) <==> Hides(f, k, w))
  {
    forall c ensures k < |f| && (Leads(f, p, ([x] + w) + [Capture(c)]) <==> Leads(f, k, w + [Capture(c)])) {
      assert ([x] + w) + [Capture(c)] == [x] + (w + [Capture(c)]);
      LeadsThroughKid(f, p, k, x, w + [Capture(c)]);
    }
  }

  /* ----- the two forms agree ----- */

  /** The same places below both, as far as they are in view. */
  ghost predicate SamePlaces(f: seq<MovePath>, s: nat, d: nat)
    requires s < |f| && d < |f|
  {
    forall w | InView(f, s, d, w) :: Leads(f, s, w) <==> Leads(f, d, w)
  }

  lemma InViewThroughKids(f: Forest, s: nat, d: nat, ks: nat, kd: nat, x: Projection, w: seq<Projection>)
    requires s < |f| && d < |f| && ks in Kids(f, s) && kd in Kids(f, d)
    requires Label(f, ks) == Some(x) && Label(f, kd) == Some(x)
    requires !IsEnvironment(f, s) && !IsEnvironment(f, d)
    ensures ks < |f| && kd < |f| && (InView(f, s, d, [x] + w) <==> InView(f, ks, kd, w))
  {
    KidFacts(f, s, ks);
    KidFacts(f, d, kd);
    HidesEnvironment(f, s);
    HidesEnvironment(f, d);
    var xw := [x] + w;
    forall k | 0 <= k < |w|
      ensures Hides(f, s, xw[..k + 1]) <==> Hides(f, ks, w[..k])
      ensures Hides(f, d, xw[..k + 1]) <==> Hides(f, kd, w[..k])
    {
      assert xw[..k + 1] == [x] + w[..k];
      HidesThroughKid(f, s, ks, x, w[..k]);
      HidesThroughKid(f, d, kd, x, w[..k]);
    }
    assert xw[..0] == [];
    if InView(f, s, d, xw) {
      forall k | 0 <= k < |w| ensures !Hides(f, ks, w[..k]) && !Hides(f, kd, w[..k]) {
        assert !Hides(f, s, xw[..k + 1]) && !Hides(f, d, xw[..k + 1]);
      }
    }
    if InView(f, ks, kd, w) {
      forall k | 0 <= k < |xw| ensures !Hides(f, s, xw[..k]) && !Hides(f, d, xw[..k]) {
        if k > 0 { assert !Hides(f, ks, w[..k - 1]) && !Hides(f, kd, w[..k - 1]); }
      }
    }
  }

  lemma {:induction false} MatchingLead(f: Forest, s: nat, d: nat, w: seq<Projection>)
    requires s < |f| && d < |f| && ShapesMatch(f, s, d) && InView(f, s, d, w) && Leads(f, s, w)
    ensures Leads(f, d, w)
    decreases |w|
  {
    if w == [] {
      assert f[d].place == Place(f[d].place.local, f[d].place.projections + w);
      return;
    }
    var x, rest := w[0], w[1..];
    assert w == [x] + rest;
    HidesEnvironment(f, s);
    HidesEnvironment(f, d);
    assert w[..0] == [] && w[..1] == [x];
    LeadsBefore(f, s, w, 1);
    LeadsToKid(f, s, x);
    var ks :| ks in Kids(f, s) && Label(f, ks) == Some(x);
    var kd := Partner(f, s, d, ks);
    InViewThroughKids(f, s, d, ks, kd, x, rest);
    LeadsThroughKid(f, s, ks, x, rest);
    LeadsThroughKid(f, d, kd, x, rest);
    MatchingLead(f, ks, kd, rest);
  }

  lemma KidsSamePlaces(f: Forest, s: nat, d: nat, ks: nat, kd: nat)
    requires s < |f| && d < |f| && SamePlaces(f, s, d) && !IsEnvironment(f, s) && !IsEnvironment(f, d)
    requires ks in Kids(f, s) && kd in Kids(f, d) && Label(f, ks) == Label(f, kd)
    ensures ks < |f| && kd < |f| && SamePlaces(f, ks, kd)
  {
    KidFacts(f, s, ks);
    KidFacts(f, d, kd);
    KidLabel(f, s, ks);
    var x := Label(f, ks).value;
    forall w | InView(f, ks, kd, w) ensures Leads(f, ks, w) <==> Leads(f, kd, w) {
      InViewThroughKids(f, s, d, ks, kd, x, w);
      LeadsThroughKid(f, s, ks, x, w);
      LeadsThroughKid(f, d, kd, x, w);
    }
  }

  /** A child on one side has its partner on the other. */
  lemma PartnerByPlace(f: Forest, s: nat, d: nat, ks: nat) returns (kd: nat)
    requires s < |f| && d < |f| && SamePlaces(f, s, d) && !IsEnvironment(f, s) && !IsEnvironment(f, d)
    requires ks in Kids(f, s)
    ensures kd in Kids(f, d) && Label(f, ks) == Label(f, kd)
  {
    KidLabel(f, s, ks);
    var x := Label(f, ks).value;
    HidesEnvironment(f, s);
    HidesEnvironment(f, d);
    assert [x][..0] == [];
    assert InView(f, s, d, [x]);
    LeadsToKid(f, s, x);
    LeadsToKid(f, d, x);
    kd :| kd in Kids(f, d) && Label(f, kd) == Some(x);
  }

  lemma SamePlacesBack(f: Forest, s: nat, d: nat)
    requires s < |f| && d < |f| && SamePlaces(f, s, d)
    ensures SamePlaces(f, d, s)
  {
    forall w | InView(f, d, s, w) ensures Leads(f, d, w) <==> Leads(f, s, w) {
      assert InView(f, s, d, w);
    }
  }

  lemma SameLabels(f: Forest, s: nat, d: nat)
    requires s < |f| && d < |f| && SamePlaces(f, s, d) && !IsEnvironment(f, s) && !IsEnvironment(f, d)
    ensures Labels(f, Kids(f, s)) <= Labels(f, Kids(f, d))
  {
    forall ks | ks in Kids(f, s) ensures Label(f, ks) in Labels(f, Kids(f, d)) {
      var kd := PartnerByPlace(f, s, d, ks);
    }
  }

  lemma SameCount(f: Forest, s: nat, d: nat)
    requires s < |f| && d < |f| && SamePlaces(f, s, d) && !IsEnvironment(f, s) && !IsEnvironment(f, d)
    ensures |Kids(f, s)| == |Kids(f, d)|
  {
    SameLabels(f, s, d);
    SamePlacesBack(f, s, d);
    SameLabels(f, d, s);
    assert Labels(f, Kids(f, s)) == Labels(f, Kids(f, d));
    LabelCount(f, s, Kids(f, s));
    LabelCount(f, d, Kids(f, d));
  }

  lemma {:induction false} SamePlacesMatch(f: Forest, s: nat, d: nat)
    requires s < |f| && d < |f| && SamePlaces(f, s, d)
    ensures ShapesMatch(f, s, d)
    decreases Height(f, s)
  {
    if !IsEnvironment(f, s) && !IsEnvironment(f, d) {
      SameCount(f, s, d);
      forall ks | ks in Kids(f, s) ensures exists kd :: kd in Kids(f, d) && KidsMatch(f, s, d, ks, kd) {
        var kd := PartnerByPlace(f, s, d, ks);
        KidsSamePlaces(f, s, d, ks, kd);
        KidFacts(f, s, ks);
        SamePlacesMatch(f, ks, kd);
        assert KidsMatch(f, s, d, ks, kd);
      }
    }
  }

  /** Two paths match in shape exactly when the same places lie below both, as far as in view. */
  lemma ShapesExactly(f: Forest, s: nat, d: nat)
    requires s < |f| && d < |f|
    ensures ShapesMatch(f, s, d) <==> SamePlaces(f, s, d)
  {
    if ShapesMatch(f, s, d) {
      ShapesSymmetric(f, s, d);
      forall w | InView(f, s, d, w) ensures Leads(f, s, w) <==> Leads(f, d, w) {
        if Leads(f, s, w) { MatchingLead(f, s, d, w); }
        if Leads(f, d, w) {
          assert InView(f, d, s, w);
          MatchingLead(f, d, s, w);
        }
      }
    }
    if SamePlaces(f, s, d) { SamePlacesMatch(f, s, d); }
  }

  /** Without callable environments below, it is a matter of equal sets of projections. */
  lemma ShapesWithoutCaptures(f: Forest, s: nat, d: nat)
    requires s < |f| && d < |f|
    requires forall w :: !Hides(f, s, w) && !Hides(f, d, w)
    ensures ShapesMatch(f, s, d) <==> forall w :: Leads(f, s, w) <==> Leads(f, d, w)
  {
    ShapesExactly(f, s, d);
    assert forall w :: InView(f, s, d, w);
  }
}
