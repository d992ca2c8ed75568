/**
 * The two-dot rule of the bass pattern, as pure definitions: which glyph is a
 * top dot, which a bottom dot, which (top, bottom) couples qualify, the
 * couples in the order the nested scan meets them, and how many builds
 * succeed along that order. The lemmas state what the rule guarantees.
 */
module BassCouples {
  import opened Wrappers
  import opened Geometry
  import opened Glyphs

  /** Pitch position expected for the upper dot of a bass clef. */
  const TopDotPitch: real := -3.0

  /** Pitch position expected for the lower dot of a bass clef. */
  const BottomDotPitch: real := -1.0

  function RealAbs(x: real): real { if x < 0.0 then -x else x }

  function IntAbs(x: int): int { if x < 0 then -x else x }

  /**
   * The values one run of the pattern works with: the pitch tolerance, the
   * abscissa tolerance already converted to pixels, and the system's staff lookup.
   */
  datatype Criteria = Criteria(maxPitchDy: real, maxDx: int, staffAtY: int -> Option<StaffId>)

  /** `g` is a dot whose pitch position is within `tol` of `pitch`, bounds included. */
  predicate DotNear(g: Glyph, pitch: real, tol: real) {
    g.shape == Some(Dot) && RealAbs(g.pitch - pitch) <= tol
  }

  predicate TopOk(g: Glyph, tol: real) { DotNear(g, TopDotPitch, tol) }

  predicate BotOk(g: Glyph, tol: real) { DotNear(g, BottomDotPitch, tol) }

  /** A qualifying couple: top dot, bottom dot, close abscissae, same staff (or both no staff). */
  predicate CoupleOk(top: Glyph, bot: Glyph, cr: Criteria) {
    && TopOk(top, cr.maxPitchDy)
    && BotOk(bot, cr.maxPitchDy)
    && IntAbs(bot.centroid.x - top.centroid.x) <= cr.maxDx
    && cr.staffAtY(bot.centroid.y) == cr.staffAtY(top.centroid.y)
  }

  datatype Couple = Couple(top: Glyph, bot: Glyph)

  /** The couples one `top` forms with `bots`, in the order of `bots`. */
  function Row(top: Glyph, bots: seq<Glyph>, cr: Criteria): seq<Couple>
    decreases |bots|
  {
    if bots == [] then []
    else
      var last := bots[|bots| - 1];
      Row(top, bots[..|bots| - 1], cr) + (if CoupleOk(top, last, cr) then [Couple(top, last)] else [])
  }

  /** The couples of the nested scan, outer loop over `tops`, inner loop over `pool`. */
  function Couples(tops: seq<Glyph>, pool: seq<Glyph>, cr: Criteria): seq<Couple>
    decreases |tops|
  {
    if tops == [] then []
    else Couples(tops[..|tops| - 1], pool, cr) + Row(tops[|tops| - 1], pool, cr)
  }

  /** The seeds handed to the builder, one per couple: always its top. */
  function Seeds(cs: seq<Couple>): seq<Glyph> {
    seq(|cs|, k requires 0 <= k < |cs| => cs[k].top)
  }

  /** The builder's verdict when seeded with `seed` after the seeds `history`. */
  predicate Verdict(decide: (seq<Glyph>, Glyph) -> bool, history: seq<Glyph>, seed: Glyph) {
    decide(history, seed)
  }

  /**
   * The number of successful builds among the entries of the builder's seed
   * log `log` from position `from` on: the entry at position k succeeded when
   * `decide(log[..k], log[k])` holds, the builder's verdict when seeded with
   * `log[k]` after the seeds before it.
   */
  function BuiltCount(decide: (seq<Glyph>, Glyph) -> bool, log: seq<Glyph>, from: nat): nat
    decreases |log|
  {
    if |log| <= from then 0
    else
      var n := |log| - 1;
      BuiltCount(decide, log[..n], from) + (if Verdict(decide, log[..n], log[n]) then 1 else 0)
  }

  /** Positions of `bots` that pair with `top`. */
  function MatchingBots(top: Glyph, bots: seq<Glyph>, cr: Criteria): set<int> {
    set j | 0 <= j < |bots| && CoupleOk(top, bots[j], cr)
  }

  // ---------------------------------------------------------------- step lemmas

  lemma SeedsSnoc(cs: seq<Couple>, c: Couple)
    ensures Seeds(cs + [c]) == Seeds(cs) + [c.top]
  {
  }

  /** One more entry in the log: the count grows by its verdict. */
  lemma BuiltCountSnoc(decide: (seq<Glyph>, Glyph) -> bool, log: seq<Glyph>, from: nat, g: Glyph)
    requires from <= |log|
    ensures BuiltCount(decide, log + [g], from)
         == BuiltCount(decide, log, from) + (if Verdict(decide, log, g) then 1 else 0)
  {
    assert (log + [g])[..|log|] == log;
  }

  /** One more build seeded with the top of `c`: the log grows by that top. */
  lemma BuildStep(history: seq<Glyph>, before: seq<Couple>, c: Couple)
    ensures history + Seeds(before + [c]) == (history + Seeds(before)) + [c.top]
  {
    SeedsSnoc(before, c);
    assert history + (Seeds(before) + [c.top]) == (history + Seeds(before)) + [c.top];
  }

  lemma RowSnoc(top: Glyph, bots: seq<Glyph>, b: Glyph, cr: Criteria)
    ensures Row(top, bots + [b], cr)
         == Row(top, bots, cr) + (if CoupleOk(top, b, cr) then [Couple(top, b)] else [])
  {
    assert (bots + [b])[..|bots|] == bots;
  }

  lemma CouplesSnoc(tops: seq<Glyph>, t: Glyph, pool: seq<Glyph>, cr: Criteria)
    ensures Couples(tops + [t], pool, cr) == Couples(tops, pool, cr) + Row(t, pool, cr)
  {
    assert (tops + [t])[..|tops|] == tops;
  }

  /** Before the inner scan, the row of `top` is empty. */
  lemma InnerScanStart(top: Glyph, glyphs: seq<Glyph>, cr: Criteria, done: seq<Couple>)
    ensures done + Row(top, glyphs[..0], cr) == done
  {
    assert glyphs[..0] == [];
  }

  /** A glyph that is no top dot adds nothing to the couples met so far. */
  lemma SkippedTop(top: Glyph, glyphs: seq<Glyph>, cr: Criteria, done: seq<Couple>)
    requires !TopOk(top, cr.maxPitchDy)
    ensures done + Row(top, glyphs, cr) == done
  {
    RowNeedsTop(top, glyphs, cr);
    assert done + [] == done;
  }

  /** One step of the inner scan: bottom `glyphs[j]` extends the current row exactly when it pairs with `top`. */
  lemma InnerScanStep(top: Glyph, glyphs: seq<Glyph>, j: nat, cr: Criteria, done: seq<Couple>, scanned: seq<Couple>)
    requires j < |glyphs| && scanned == done + Row(top, glyphs[..j], cr)
    ensures CoupleOk(top, glyphs[j], cr) ==> scanned + [Couple(top, glyphs[j])] == done + Row(top, glyphs[..j + 1], cr)
    ensures !CoupleOk(top, glyphs[j], cr) ==> scanned == done + Row(top, glyphs[..j + 1], cr)
  {
    assert glyphs[..j + 1] == glyphs[..j] + [glyphs[j]];
    RowSnoc(top, glyphs[..j], glyphs[j], cr);
  }

  // ---------------------------------------------------------------- the match rule

  /** Only a top dot forms couples: any other glyph skipped by the outer loop yields no build. */
  lemma {:induction false} RowNeedsTop(top: Glyph, bots: seq<Glyph>, cr: Criteria)
    requires !TopOk(top, cr.maxPitchDy)
    ensures Row(top, bots, cr) == []
  {
    if bots != [] {
      RowNeedsTop(top, bots[..|bots| - 1], cr);
    }
  }

  /** A row holds exactly the couples of `top` with the matching members of `bots`. */
  lemma {:induction false} RowExactly(top: Glyph, bots: seq<Glyph>, cr: Criteria, c: Couple)
    ensures c in Row(top, bots, cr) <==> c.top == top && c.bot in bots && CoupleOk(top, c.bot, cr)
  {
    if bots != [] {
      var n := |bots| - 1;
      RowExactly(top, bots[..n], cr, c);
      assert bots == bots[..n] + [bots[n]];
    }
  }

  /**
   * No early exit and nothing extra: a couple is scanned exactly when its top
   * comes from the outer glyphs, its bottom from the inner ones, and it qualifies.
   */
  lemma {:induction false} CouplesExactly(tops: seq<Glyph>, pool: seq<Glyph>, cr: Criteria, c: Couple)
    ensures c in Couples(tops, pool, cr) <==> c.top in tops && c.bot in pool && CoupleOk(c.top, c.bot, cr)
  {
    if tops != [] {
      var n := |tops| - 1;
      CouplesExactly(tops[..n], pool, cr, c);
      RowExactly(tops[n], pool, cr, c);
      assert tops == tops[..n] + [tops[n]];
    }
  }

  /** A system without a dot among its outer glyphs forms no couple. */
  lemma NoDotNoCouple(tops: seq<Glyph>, pool: seq<Glyph>, cr: Criteria)
    requires forall g :: g in tops ==> g.shape != Some(Dot)
    ensures Couples(tops, pool, cr) == []
  {
    if Couples(tops, pool, cr) != [] {
      var c := Couples(tops, pool, cr)[0];
      CouplesExactly(tops, pool, cr, c);
      assert false;
    }
  }

  /** Pitch tolerances below one line step keep the two pitch windows apart. */
  lemma TopBotExclusive(g: Glyph, tol: real)
    requires tol < 1.0
    ensures !(TopOk(g, tol) && BotOk(g, tol))
  {
  }

  /** From a tolerance of one step upward a single dot can pass both tests. */
  lemma WideToleranceAdmitsOneDot(tol: real)
    requires tol >= 1.0
    ensures exists g :: TopOk(g, tol) && BotOk(g, tol)
  {
    var g := Glyph(0, Some(Dot), -2.0, Point(0, 0), false);
    assert TopOk(g, tol) && BotOk(g, tol);
  }

  /** With a pitch tolerance below one, the builder is never handed a couple of a dot with itself. */
  lemma CoupleMembersDistinct(tops: seq<Glyph>, pool: seq<Glyph>, cr: Criteria)
    requires cr.maxPitchDy < 1.0
    ensures forall c :: c in Couples(tops, pool, cr) ==> c.top != c.bot
  {
    forall c | c in Couples(tops, pool, cr)
      ensures c.top != c.bot
    {
      CouplesExactly(tops, pool, cr, c);
      TopBotExclusive(c.top, cr.maxPitchDy);
    }
  }

  /** Tolerances are inclusive: a couple exactly at the pitch and abscissa limits qualifies. */
  lemma LimitsAreInclusive(top: Glyph, bot: Glyph, cr: Criteria)
    requires top.shape == Some(Dot) && bot.shape == Some(Dot) && cr.maxPitchDy >= 0.0
    requires top.pitch == TopDotPitch + cr.maxPitchDy && bot.pitch == BottomDotPitch - cr.maxPitchDy
    requires bot.centroid.x == top.centroid.x + cr.maxDx && cr.maxDx >= 0
    requires cr.staffAtY(bot.centroid.y) == cr.staffAtY(top.centroid.y)
    ensures CoupleOk(top, bot, cr)
  {
  }

  /** The staff test compares references, so two dots that both lie off every staff still pair. */
  lemma StafflessDotsPair(top: Glyph, bot: Glyph, cr: Criteria)
    requires TopOk(top, cr.maxPitchDy) && BotOk(bot, cr.maxPitchDy)
    requires IntAbs(bot.centroid.x - top.centroid.x) <= cr.maxDx
    requires cr.staffAtY(top.centroid.y) == None && cr.staffAtY(bot.centroid.y) == None
    ensures CoupleOk(top, bot, cr)
  {
  }

  /**
   * Two dots at the two expected pitches, one above the other on the same
   * staff, with pitch tolerances from zero up to (not including) two steps:
   * the scan meets exactly one couple, the upper dot over the lower one.
   */
  lemma PairYieldsOneCouple(top: Glyph, bot: Glyph, cr: Criteria)
    requires top.shape == Some(Dot) && top.pitch == TopDotPitch
    requires bot.shape == Some(Dot) && bot.pitch == BottomDotPitch
    requires bot.centroid.x == top.centroid.x && cr.staffAtY(bot.centroid.y) == cr.staffAtY(top.centroid.y)
    requires 0.0 <= cr.maxPitchDy < 2.0 && cr.maxDx >= 0
    ensures Couples([top, bot], [top, bot], cr) == [Couple(top, bot)]
  {
    var glyphs := [top, bot];
    assert !CoupleOk(top, top, cr);
    assert CoupleOk(top, bot, cr);
    RowSnoc(top, [], top, cr);
    RowSnoc(top, [top], bot, cr);
    assert [top] + [bot] == glyphs;
    RowNeedsTop(bot, glyphs, cr);
    CouplesSnoc([], top, glyphs, cr);
    CouplesSnoc([top], bot, glyphs, cr);
  }

  /**
   * The same two dots under a pitch tolerance of two steps or more: each dot
   * passes both pitch tests, so the scan meets all four couples, each dot
   * paired with itself among them.
   */
  lemma WidePairYieldsFourCouples(top: Glyph, bot: Glyph, cr: Criteria)
    requires top.shape == Some(Dot) && top.pitch == TopDotPitch
    requires bot.shape == Some(Dot) && bot.pitch == BottomDotPitch
    requires bot.centroid.x == top.centroid.x && cr.staffAtY(bot.centroid.y) == cr.staffAtY(top.centroid.y)
    requires cr.maxPitchDy >= 2.0 && cr.maxDx >= 0
    ensures Couples([top, bot], [top, bot], cr)
         == [Couple(top, top), Couple(top, bot), Couple(bot, top), Couple(bot, bot)]
  {
    var glyphs := [top, bot];
    assert CoupleOk(top, top, cr) && CoupleOk(top, bot, cr);
    assert CoupleOk(bot, top, cr) && CoupleOk(bot, bot, cr);
    RowSnoc(top, [], top, cr);
    RowSnoc(top, [top], bot, cr);
    RowSnoc(bot, [], top, cr);
    RowSnoc(bot, [top], bot, cr);
    assert [top] + [bot] == glyphs;
    CouplesSnoc([], top, glyphs, cr);
    CouplesSnoc([top], bot, glyphs, cr);
  }

  // ---------------------------------------------------------------- counting builds

  /** The success count never exceeds the number of builds counted. */
  lemma {:induction false} BuiltCountBounded(decide: (seq<Glyph>, Glyph) -> bool, log: seq<Glyph>, from: nat)
    requires from <= |log|
    ensures BuiltCount(decide, log, from) <= |log| - from
  {
    if |log| > from {
      BuiltCountBounded(decide, log[..|log| - 1], from);
    }
  }

  /** Every build is counted exactly when every build succeeded. */
  lemma {:induction false} BuiltCountAll(decide: (seq<Glyph>, Glyph) -> bool, log: seq<Glyph>, from: nat)
    requires from <= |log|
    ensures BuiltCount(decide, log, from) == |log| - from
        <==> forall k :: from <= k < |log| ==> decide(log[..k], log[k])
  {
    if |log| > from {
      var n := |log| - 1;
      var prefix := log[..n];
      BuiltCountAll(decide, prefix, from);
      BuiltCountBounded(decide, prefix, from);
      assert forall k :: from <= k < n ==> prefix[..k] == log[..k] && prefix[k] == log[k];
    }
  }

  /** The builds of a run never succeed more often than there are qualifying couples. */
  lemma SuccessesBounded(decide: (seq<Glyph>, Glyph) -> bool, history: seq<Glyph>, glyphs: seq<Glyph>, cr: Criteria)
    ensures BuiltCount(decide, history + Seeds(Couples(glyphs, glyphs, cr)), |history|) <= |Couples(glyphs, glyphs, cr)|
  {
    BuiltCountBounded(decide, history + Seeds(Couples(glyphs, glyphs, cr)), |history|);
  }

  /** Without any dot in the system no build is attempted, so the count is zero. */
  lemma NoDotNoSuccess(decide: (seq<Glyph>, Glyph) -> bool, history: seq<Glyph>, glyphs: seq<Glyph>, cr: Criteria)
    requires forall g :: g in glyphs ==> g.shape != Some(Dot)
    ensures BuiltCount(decide, history + Seeds(Couples(glyphs, glyphs, cr)), |history|) == 0
  {
    NoDotNoCouple(glyphs, glyphs, cr);
    assert history + Seeds([]) == history;
  }

  // ---------------------------------------------------------------- builds per top

  lemma MatchingBotsSnoc(top: Glyph, bots: seq<Glyph>, b: Glyph, cr: Criteria)
    ensures |MatchingBots(top, bots + [b], cr)|
         == |MatchingBots(top, bots, cr)| + (if CoupleOk(top, b, cr) then 1 else 0)
  {
    var before, after := MatchingBots(top, bots, cr), MatchingBots(top, bots + [b], cr);
    var n := |bots|;
    assert n !in before;
    assert forall j :: j in after <==> j in before || (j == n && CoupleOk(top, b, cr)) by {
      forall j
        ensures j in after <==> j in before || (j == n && CoupleOk(top, b, cr))
      {
        if 0 <= j < n {
          assert (bots + [b])[j] == bots[j];
        }
      }
    }
    if CoupleOk(top, b, cr) {
      assert after == before + {n};
    } else {
      assert after == before;
    }
  }

  /** A row pairs `top` once with every matching member of `bots`. */
  lemma {:induction false} RowLength(top: Glyph, bots: seq<Glyph>, cr: Criteria)
    ensures |Row(top, bots, cr)| == |MatchingBots(top, bots, cr)|
    ensures forall c :: c in Row(top, bots, cr) ==> c.top == top
  {
    if bots != [] {
      var n := |bots| - 1;
      var prefix, b := bots[..n], bots[n];
      assert bots == prefix + [b];
      RowLength(top, prefix, cr);
      RowSnoc(top, prefix, b, cr);
      MatchingBotsSnoc(top, prefix, b, cr);
    }
  }

  /** A sequence made of one value holds that value as often as it is long, and nothing else. */
  lemma {:induction false} UniformCount(s: seq<Glyph>, x: Glyph, t: Glyph)
    requires forall k :: 0 <= k < |s| ==> s[k] == x
    ensures multiset(s)[t] == if t == x then |s| else 0
  {
    if s != [] {
      var n := |s| - 1;
      UniformCount(s[..n], x, t);
      assert s == s[..n] + [s[n]];
    }
  }

  /** A top is seeded, within its own row, once per matching bottom, and nothing else is seeded there. */
  lemma RowSeedCount(top: Glyph, bots: seq<Glyph>, cr: Criteria, t: Glyph)
    ensures multiset(Seeds(Row(top, bots, cr)))[t] == if t == top then |MatchingBots(top, bots, cr)| else 0
  {
    var row := Row(top, bots, cr);
    RowLength(top, bots, cr);
    var s := Seeds(row);
    forall k | 0 <= k < |s| ensures s[k] == top {
      assert row[k] in row;
    }
    UniformCount(s, top, t);
  }

  lemma {:induction false} SeedsAppend(a: seq<Couple>, b: seq<Couple>)
    ensures Seeds(a + b) == Seeds(a) + Seeds(b)
  {
    if b != [] {
      var n := |b| - 1;
      SeedsAppend(a, b[..n]);
      assert a + b == (a + b[..n]) + [b[n]];
      assert b == b[..n] + [b[n]];
      SeedsSnoc(a + b[..n], b[n]);
      SeedsSnoc(b[..n], b[n]);
    } else {
      assert a + b == a;
    }
  }

  lemma OneMoreTimes(m: int, k: int, b: bool)
    ensures (m + if b then 1 else 0) * k == m * k + (if b then k else 0)
  {
  }

  /**
   * No deduplication: a glyph is seeded once for every (occurrence as top,
   * matching bottom) pair, so a top with k matching bottoms triggers k builds.
   */
  lemma {:induction false} BuildsPerTop(tops: seq<Glyph>, pool: seq<Glyph>, cr: Criteria, t: Glyph)
    ensures multiset(Seeds(Couples(tops, pool, cr)))[t] == multiset(tops)[t] * |MatchingBots(t, pool, cr)|
  {
    if tops != [] {
      var n := |tops| - 1;
      var prefix, last := tops[..n], tops[n];
      assert tops == prefix + [last];
      var done, row := Couples(prefix, pool, cr), Row(last, pool, cr);
      CouplesSnoc(prefix, last, pool, cr);
      BuildsPerTop(prefix, pool, cr, t);
      SeedsAppend(done, row);
      RowSeedCount(last, pool, cr, t);
      var k := |MatchingBots(t, pool, cr)|;
      var m := multiset(prefix)[t];
      assert multiset(tops)[t] == m + if last == t then 1 else 0;
      assert multiset(Seeds(Couples(tops, pool, cr)))[t] == m * k + (if last == t then k else 0);
      OneMoreTimes(m, k, last == t);
    }
  }
}
