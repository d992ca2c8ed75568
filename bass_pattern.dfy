/**
 * The bass pattern: looks in one system for the vertical two-dot motif of a
 * bass clef and, for every couple of dots found, asks the compound builder to
 * merge the neighbourhood of the upper dot into a bass clef.
 */
module BassPattern {
  import opened Wrappers
  import opened Geometry
  import opened Glyphs
  import opened BassCouples

  /**
   * The tunable parameters: abscissa tolerance (in interline fractions), pitch
   * tolerance (in pitch steps) and the maximum doubt for clef verification.
   */
  datatype Constants = Constants(maxBassDotDx: real, maxBassDotPitchDy: real, clefMaxDoubt: real)

  /** The values the parameters take unless a user changes them. */
  const Defaults: Constants := Constants(0.25, 0.5, 3.0)

  /** The sheet scale, through its conversion of a fraction of the interline into pixels. */
  datatype Scale = Scale(conversion: real -> int) {

    function ToPixels(fraction: real): int {
      conversion(fraction)
    }
  }

  /**
   * A system as the pattern sees it: its glyphs in iteration order, and its
   * lookup of the staff (if any) at an ordinate.
   */
  datatype SystemInfo = SystemInfo(glyphs: seq<Glyph>, staffLookup: int -> Option<StaffId>) {

    function StaffAtY(y: int): Option<StaffId> {
      staffLookup(y)
    }
  }

  /** The criteria one run derives from the constants, the scale and the system. */
  function CriteriaOf(system: SystemInfo, scale: Scale, constants: Constants): Criteria {
    Criteria(constants.maxBassDotPitchDy, scale.ToPixels(constants.maxBassDotDx), system.staffLookup)
  }

  /**
   * With the default pitch tolerance of half a step, no dot can serve as both
   * members of a couple, whatever the system and the scale.
   */
  lemma DefaultsKeepCouplesDistinct(system: SystemInfo, scale: Scale)
    ensures forall c :: c in Couples(system.glyphs, system.glyphs, CriteriaOf(system, scale, Defaults)) ==> c.top != c.bot
  {
    CoupleMembersDistinct(system.glyphs, system.glyphs, CriteriaOf(system, scale, Defaults));
  }

  /**
   * A system of three dots, with the default constants and a scale that turns
   * a quarter interline into 5 pixels: an upper dot A, a lower dot B four
   * pixels to its right on the same staff, and a lower dot C three hundred
   * pixels away. The scan meets the couple (A, B) and nothing else; C is too
   * far from A to pair with it.
   */
  lemma ThreeDotScenario(system: SystemInfo, scale: Scale)
    requires system.glyphs == [Glyph(1, Some(Dot), -3.0, Point(100, 50), false),
                               Glyph(2, Some(Dot), -1.0, Point(104, 70), false),
                               Glyph(3, Some(Dot), -1.0, Point(400, 70), false)]
    requires system.StaffAtY(50) == system.StaffAtY(70)
    requires scale.ToPixels(0.25) == 5
    ensures Couples(system.glyphs, system.glyphs, CriteriaOf(system, scale, Defaults))
         == [Couple(system.glyphs[0], system.glyphs[1])]
  {
    var glyphs := system.glyphs;
    var a, b, c := glyphs[0], glyphs[1], glyphs[2];
    var cr := CriteriaOf(system, scale, Defaults);
    assert cr == Criteria(0.5, 5, system.staffLookup);
    assert !CoupleOk(a, a, cr) && CoupleOk(a, b, cr) && !CoupleOk(a, c, cr);
    RowSnoc(a, [], a, cr);
    RowSnoc(a, [a], b, cr);
    RowSnoc(a, [a, b], c, cr);
    assert [a] + [b] == [a, b] && [a, b] + [c] == glyphs;
    RowNeedsTop(b, glyphs, cr);
    RowNeedsTop(c, glyphs, cr);
    CouplesSnoc([], a, glyphs, cr);
    CouplesSnoc([a], b, glyphs, cr);
    CouplesSnoc([a, b], c, glyphs, cr);
  }

  datatype AdapterError = SeedNotSet

  /** The compound adapter for bass clefs: which glyphs may join, and where to look for them. */
  class BassAdapter {
    const scale: Scale
    const maxDoubt: real
    /** The shapes a compound built through this adapter must end up with. */
    const targetShapes: set<Shape> := BassClefs
    /** The glyph the builder grows the compound from; None until the builder sets it. */
    var seed: Option<Glyph>

    constructor (scale: Scale, maxDoubt: real)
      ensures this.scale == scale && this.maxDoubt == maxDoubt
      ensures seed == None
    {
      this.scale := scale;
      this.maxDoubt := maxDoubt;
      seed := None;
    }

    /** Seeding by the builder before it asks for the intersection box. */
    method SetSeed(g: Glyph)
      modifies this
      ensures seed == Some(g)
    {
      seed := Some(g);
    }

    /**
     * Every automatically shaped glyph may join; a glyph whose shape a human
     * forced may join only if that shape is one of the target shapes.
     */
    function IsCandidateSuitable(glyph: Glyph): (suitable: bool)
      ensures !glyph.manual ==> suitable
      ensures glyph.manual ==> (suitable <==> InRange(glyph.shape, targetShapes))
      ensures glyph.manual && glyph.shape == Some(Dot) ==> !suitable
    {
      !glyph.manual || InRange(glyph.shape, BassClefs)
    }

    /**
     * The search box: from the seed's centroid, two interlines to the left and
     * three interlines down. Fails when no seed has been set.
     */
    function IntersectionBox(): (box: Result<Rectangle, AdapterError>)
      reads this
      ensures box.Failure? <==> seed.None?
      ensures box.Success? ==> Covers(box.value, seed.value.centroid)
      ensures box.Success? ==>
        var c := seed.value.centroid;
        Covers(box.value, Point(c.x - scale.ToPixels(2.0), c.y + scale.ToPixels(3.0)))
      ensures box.Success? && scale.ToPixels(2.0) >= 0 && scale.ToPixels(3.0) >= 0 ==>
        var c := seed.value.centroid;
        box.value == Rectangle(c.x - scale.ToPixels(2.0), c.y, scale.ToPixels(2.0), scale.ToPixels(3.0))
    {
      match seed
      case None => Failure(SeedNotSet)
      case Some(s) =>
        var pixRect := At(s.centroid);
        Success(Add(pixRect, Point(pixRect.x - scale.ToPixels(2.0), pixRect.y + scale.ToPixels(3.0))))
    }
  }

  /**
   * The compound builder, whose workings lie outside this model: `decide(h, g)`
   * is its verdict (a compound built or not) when seeded with `g` after having
   * been seeded with the glyphs `h`; `seeds` records every seed it was given.
   */
  class CompoundBuilder {
    const decide: (seq<Glyph>, Glyph) -> bool
    var seeds: seq<Glyph>

    constructor (decide: (seq<Glyph>, Glyph) -> bool)
      ensures this.decide == decide && seeds == []
    {
      this.decide := decide;
      seeds := [];
    }

    /** Seeds the adapter with `seed`, records it, and reports the verdict. */
    method BuildCompound(seed: Glyph, glyphs: seq<Glyph>, adapter: BassAdapter) returns (built: bool)
      modifies this, adapter
      ensures seeds == old(seeds) + [seed]
      ensures adapter.seed == Some(seed)
      ensures built == Verdict(decide, old(seeds), seed)
    {
      adapter.SetSeed(seed);
      built := Verdict(decide, seeds, seed);
      seeds := seeds + [seed];
    }
  }

  /**
   * The inner scan for an upper dot `top`: `top` is paired with every lower
   * dot of the system close enough in abscissa and on the same staff, in
   * glyph order, and a compound seeded with `top` is built for each. `done`
   * are the couples already met, `history` the builder's seeds before the run.
   */
  method ScanBottoms(system: SystemInfo, top: Glyph, maxPitchDy: real, maxDx: int,
                     adapter: BassAdapter, builder: CompoundBuilder, ghost cr: Criteria,
                     ghost history: seq<Glyph>, ghost done: seq<Couple>, successBefore: nat)
    returns (successNb: nat, ghost scanned: seq<Couple>)
    requires cr == Criteria(maxPitchDy, maxDx, system.staffLookup)
    requires TopOk(top, maxPitchDy)
    requires builder.seeds == history + Seeds(done)
    requires successBefore == BuiltCount(builder.decide, builder.seeds, |history|)
    modifies builder, adapter
    ensures scanned == done + Row(top, system.glyphs, cr)
    ensures builder.seeds == history + Seeds(scanned)
    ensures successNb == BuiltCount(builder.decide, builder.seeds, |history|)
  {
    successNb := successBefore;
    scanned := done;
    var glyphs := system.glyphs;
    var topX := top.centroid.x;
    var topStaff := system.StaffAtY(top.centroid.y);
    InnerScanStart(top, glyphs, cr, done);
    var j := 0;
    while j < |glyphs|
      invariant 0 <= j <= |glyphs|
      modifies builder, adapter
      invariant scanned == done + Row(top, glyphs[..j], cr)
      invariant builder.seeds == history + Seeds(scanned)
      invariant successNb == BuiltCount(builder.decide, builder.seeds, |history|)
    {
      var bot := glyphs[j];
      InnerScanStep(top, glyphs, j, cr, done, scanned);
      if bot.shape != Some(Dot) || RealAbs(bot.pitch - BottomDotPitch) > maxPitchDy {
        assert !CoupleOk(top, bot, cr);
      } else if IntAbs(bot.centroid.x - topX) > maxDx {
        assert !CoupleOk(top, bot, cr);
      } else if system.StaffAtY(bot.centroid.y) != topStaff {
        assert !CoupleOk(top, bot, cr);
      } else {
        assert CoupleOk(top, bot, cr);
        ghost var logBefore := builder.seeds;
        var built := builder.BuildCompound(top, glyphs, adapter);
        BuiltCountSnoc(builder.decide, logBefore, |history|, top);
        BuildStep(history, scanned, Couple(top, bot));
        scanned := scanned + [Couple(top, bot)];
        if built {
          successNb := successNb + 1;
        }
      }
      j := j + 1;
    }
    assert glyphs[..|glyphs|] == glyphs;
  }

  /**
   * One turn of the outer scan, with `top` as the candidate upper dot: unless
   * `top` is a dot close enough to the top pitch, nothing happens; otherwise
   * the inner scan runs for it. `tops` are the glyphs already taken as
   * candidates and `done` the couples they yielded.
   */
  method ScanTop(system: SystemInfo, top: Glyph, maxPitchDy: real, maxDx: int,
                 adapter: BassAdapter, builder: CompoundBuilder, ghost cr: Criteria,
                 ghost history: seq<Glyph>, ghost tops: seq<Glyph>, ghost done: seq<Couple>, successBefore: nat)
    returns (successNb: nat, ghost scanned: seq<Couple>)
    requires cr == Criteria(maxPitchDy, maxDx, system.staffLookup)
    requires done == Couples(tops, system.glyphs, cr)
    requires builder.seeds == history + Seeds(done)
    requires successBefore == BuiltCount(builder.decide, builder.seeds, |history|)
    modifies builder, adapter
    ensures scanned == Couples(tops + [top], system.glyphs, cr)
    ensures builder.seeds == history + Seeds(scanned)
    ensures successNb == BuiltCount(builder.decide, builder.seeds, |history|)
  {
    CouplesSnoc(tops, top, system.glyphs, cr);
    if top.shape != Some(Dot) || RealAbs(top.pitch - TopDotPitch) > maxPitchDy {
      SkippedTop(top, system.glyphs, cr, done);
      successNb, scanned := successBefore, done;
    } else {
      successNb, scanned := ScanBottoms(system, top, maxPitchDy, maxDx, adapter, builder, cr, history, done, successBefore);
    }
  }

  /**
   * The outer scan: every glyph of the system in turn as the candidate upper
   * dot. The builder is seeded with the top of every qualifying couple, in
   * scan order, and the successful builds are counted.
   */
  method ScanSystem(system: SystemInfo, maxPitchDy: real, maxDx: int, adapter: BassAdapter, builder: CompoundBuilder)
    returns (successNb: nat)
    modifies builder, adapter
    ensures builder.seeds
         == old(builder.seeds) + Seeds(Couples(system.glyphs, system.glyphs, Criteria(maxPitchDy, maxDx, system.staffLookup)))
    ensures successNb == BuiltCount(builder.decide, builder.seeds, |old(builder.seeds)|)
  {
    ghost var cr := Criteria(maxPitchDy, maxDx, system.staffLookup);
    ghost var history := builder.seeds;
    var glyphs := system.glyphs;
    successNb := 0;
    // the couples met so far, in scan order
    ghost var scanned: seq<Couple> := [];
    // the glyphs already taken as tops
    ghost var prefix: seq<Glyph> := [];
    var i := 0;
    while i < |glyphs|
      invariant 0 <= i <= |glyphs|
      modifies builder, adapter
      invariant prefix == glyphs[..i]
      invariant scanned == Couples(prefix, glyphs, cr)
      invariant builder.seeds == history + Seeds(scanned)
      invariant successNb == BuiltCount(builder.decide, builder.seeds, |history|)
    {
      var top := glyphs[i];
      ghost var done := scanned;
      successNb, scanned := ScanTop(system, top, maxPitchDy, maxDx, adapter, builder, cr, history, prefix, done, successNb);
      assert glyphs[..i + 1] == prefix + [top];
      prefix := prefix + [top];
      i := i + 1;
    }
    assert glyphs[..|glyphs|] == glyphs;
  }

  /**
   * The pattern run: reads the constants, converts the abscissa tolerance to
   * pixels, creates the bass adapter and scans the system. It returns how many
   * builds succeeded.
   */
  method RunPattern(system: SystemInfo, scale: Scale, constants: Constants, builder: CompoundBuilder)
    returns (successNb: nat)
    modifies builder
    ensures builder.seeds
         == old(builder.seeds) + Seeds(Couples(system.glyphs, system.glyphs, CriteriaOf(system, scale, constants)))
    ensures successNb == BuiltCount(builder.decide, builder.seeds, |old(builder.seeds)|)
  {
    var clefMaxDoubt := constants.clefMaxDoubt;
    var maxBassDotPitchDy := constants.maxBassDotPitchDy;
    var maxBassDotDx := scale.ToPixels(constants.maxBassDotDx);
    var bassAdapter := new BassAdapter(scale, clefMaxDoubt);
    successNb := ScanSystem(system, maxBassDotPitchDy, maxBassDotDx, bassAdapter, builder);
  }
}
