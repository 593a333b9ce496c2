/** The table of quarter squares, entry by entry (essentials/stdlib/__mulsi3.c:3-49), and the formula
    that its comment gives for it. */
module QuarterTable {

  /** Floor of n * n / 4, for the 511 indices. */
  function QuarterSquare(n: nat): nat
    requires n <= 510
  {
    n * n / 4
  }

  /** The line holds the quarter squares from 12 r on: twelve entries, seven in the last. */
  ghost predicate Right(line: seq<nat>, r: nat) {
    && |line| == (if r < 42 then 12 else 7)
    && forall j | 0 <= j < |line| && 12 * r + j <= 510 :: line[j] == QuarterSquare(12 * r + j)
  }

  // ---- the lines of the table, four at a time ----

  function Lines0(r: nat): seq<nat> {
    if r == 0 then [0, 0, 1, 2, 4, 6, 9, 12, 16, 20, 25, 30]
    else if r == 1 then [36, 42, 49, 56, 64, 72, 81, 90, 100, 110, 121, 132]
    else if r == 2 then [144, 156, 169, 182, 196, 210, 225, 240, 256, 272, 289, 306]
    else [324, 342, 361, 380, 400, 420, 441, 462, 484, 506, 529, 552]
  }

  lemma Right0(r: nat)
    requires 0 <= r <= 3
    ensures Right(Lines0(r), r)
  {
  }

  function Lines4(r: nat): seq<nat> {
    if r == 4 then [576, 600, 625, 650, 676, 702, 729, 756, 784, 812, 841, 870]
    else if r == 5 then [900, 930, 961, 992, 1024, 1056, 1089, 1122, 1156, 1190, 1225, 1260]
    else if r == 6 then [1296, 1332, 1369, 1406, 1444, 1482, 1521, 1560, 1600, 1640, 1681, 1722]
    else [1764, 1806, 1849, 1892, 1936, 1980, 2025, 2070, 2116, 2162, 2209, 2256]
  }

  lemma Right4(r: nat)
    requires 4 <= r <= 7
    ensures Right(Lines4(r), r)
  {
  }

  function Lines8(r: nat): seq<nat> {
    if r == 8 then [2304, 2352, 2401, 2450, 2500, 2550, 2601, 2652, 2704, 2756, 2809, 2862]
    else if r == 9 then [2916, 2970, 3025, 3080, 3136, 3192, 3249, 3306, 3364, 3422, 3481, 3540]
    else if r == 10 then [3600, 3660, 3721, 3782, 3844, 3906, 3969, 4032, 4096, 4160, 4225, 4290]
    else [4356, 4422, 4489, 4556, 4624, 4692, 4761, 4830, 4900, 4970, 5041, 5112]
  }

  lemma Right8(r: nat)
    requires 8 <= r <= 11
    ensures Right(Lines8(r), r)
  {
  }

  function Lines12(r: nat): seq<nat> {
    if r == 12 then [5184, 5256, 5329, 5402, 5476, 5550, 5625, 5700, 5776, 5852, 5929, 6006]
    else if r == 13 then [6084, 6162, 6241, 6320, 6400, 6480, 6561, 6642, 6724, 6806, 6889, 6972]
    else if r == 14 then [7056, 7140, 7225, 7310, 7396, 7482, 7569, 7656, 7744, 7832, 7921, 8010]
    else [8100, 8190, 8281, 8372, 8464, 8556, 8649, 8742, 8836, 8930, 9025, 9120]
  }

  lemma Right12(r: nat)
    requires 12 <= r <= 15
    ensures Right(Lines12(r), r)
  {
  }

  function Lines16(r: nat): seq<nat> {
    if r == 16 then [9216, 9312, 9409, 9506, 9604, 9702, 9801, 9900, 10000, 10100, 10201, 10302]
    else if r == 17 then [10404, 10506, 10609, 10712, 10816, 10920, 11025, 11130, 11236, 11342, 11449, 11556]
    else if r == 18 then [11664, 11772, 11881, 11990, 12100, 12210, 12321, 12432, 12544, 12656, 12769, 12882]
    else [12996, 13110, 13225, 13340, 13456, 13572, 13689, 13806, 13924, 14042, 14161, 14280]
  }

  lemma Right16(r: nat)
    requires 16 <= r <= 19
    ensures Right(Lines16(r), r)
  {
  }

  function Lines20(r: nat): seq<nat> {
    if r == 20 then [14400, 14520, 14641, 14762, 14884, 15006, 15129, 15252, 15376, 15500, 15625, 15750]
    else if r == 21 then [15876, 16002, 16129, 16256, 16384, 16512, 16641, 16770, 16900, 17030, 17161, 17292]
    else if r == 22 then [17424, 17556, 17689, 17822, 17956, 18090, 18225, 18360, 18496, 18632, 18769, 18906]
    else [19044, 19182, 19321, 19460, 19600, 19740, 19881, 20022, 20164, 20306, 20449, 20592]
  }

  lemma Right20(r: nat)
    requires 20 <= r <= 23
    ensures Right(Lines20(r), r)
  {
  }

  function Lines24(r: nat): seq<nat> {
    if r == 24 then [20736, 20880, 21025, 21170, 21316, 21462, 21609, 21756, 21904, 22052, 22201, 22350]
    else if r == 25 then [22500, 22650, 22801, 22952, 23104, 23256, 23409, 23562, 23716, 23870, 24025, 24180]
    else if r == 26 then [24336, 24492, 24649, 24806, 24964, 25122, 25281, 25440, 25600, 25760, 25921, 26082]
    else [26244, 26406, 26569, 26732, 26896, 27060, 27225, 27390, 27556, 27722, 27889, 28056]
  }

  lemma Right24(r: nat)
    requires 24 <= r <= 27
    ensures Right(Lines24(r), r)
  {
  }

  function Lines28(r: nat): seq<nat> {
    if r == 28 then [28224, 28392, 28561, 28730, 28900, 29070, 29241, 29412, 29584, 29756, 29929, 30102]
    else if r == 29 then [30276, 30450, 30625, 30800, 30976, 31152, 31329, 31506, 31684, 31862, 32041, 32220]
    else if r == 30 then [32400, 32580, 32761, 32942, 33124, 33306, 33489, 33672, 33856, 34040, 34225, 34410]
    else [34596, 34782, 34969, 35156, 35344, 35532, 35721, 35910, 36100, 36290, 36481, 36672]
  }

  lemma Right28(r: nat)
    requires 28 <= r <= 31
    ensures Right(Lines28(r), r)
  {
  }

  function Lines32(r: nat): seq<nat> {
    if r == 32 then [36864, 37056, 37249, 37442, 37636, 37830, 38025, 38220, 38416, 38612, 38809, 39006]
    else if r == 33 then [39204, 39402, 39601, 39800, 40000, 40200, 40401, 40602, 40804, 41006, 41209, 41412]
    else if r == 34 then [41616, 41820, 42025, 42230, 42436, 42642, 42849, 43056, 43264, 43472, 43681, 43890]
    else [44100, 44310, 44521, 44732, 44944, 45156, 45369, 45582, 45796, 46010, 46225, 46440]
  }

  lemma Right32(r: nat)
    requires 32 <= r <= 35
    ensures Right(Lines32(r), r)
  {
  }

  function Lines36(r: nat): seq<nat> {
    if r == 36 then [46656, 46872, 47089, 47306, 47524, 47742, 47961, 48180, 48400, 48620, 48841, 49062]
    else if r == 37 then [49284, 49506, 49729, 49952, 50176, 50400, 50625, 50850, 51076, 51302, 51529, 51756]
    else if r == 38 then [51984, 52212, 52441, 52670, 52900, 53130, 53361, 53592, 53824, 54056, 54289, 54522]
    else [54756, 54990, 55225, 55460, 55696, 55932, 56169, 56406, 56644, 56882, 57121, 57360]
  }

  lemma Right36(r: nat)
    requires 36 <= r <= 39
    ensures Right(Lines36(r), r)
  {
  }

  function Lines40(r: nat): seq<nat> {
    if r == 40 then [57600, 57840, 58081, 58322, 58564, 58806, 59049, 59292, 59536, 59780, 60025, 60270]
    else if r == 41 then [60516, 60762, 61009, 61256, 61504, 61752, 62001, 62250, 62500, 62750, 63001, 63252]
    else [63504, 63756, 64009, 64262, 64516, 64770, 65025]
  }

  lemma Right40(r: nat)
    requires 40 <= r <= 42
    ensures Right(Lines40(r), r)
  {
  }

  function Line(r: nat): seq<nat> {
    if r < 4 then Lines0(r)
    else if r < 8 then Lines4(r)
    else if r < 12 then Lines8(r)
    else if r < 16 then Lines12(r)
    else if r < 20 then Lines16(r)
    else if r < 24 then Lines20(r)
    else if r < 28 then Lines24(r)
    else if r < 32 then Lines28(r)
    else if r < 36 then Lines32(r)
    else if r < 40 then Lines36(r)
    else Lines40(r)
  }

  lemma LineRight(r: nat)
    requires r < 43
    ensures Right(Line(r), r)
  {
    hide Right, Lines0, Lines4, Lines8, Lines12, Lines16, Lines20, Lines24, Lines28, Lines32, Lines36, Lines40;
    if r < 4 { Right0(r); }
    else if r < 8 { Right4(r); }
    else if r < 12 { Right8(r); }
    else if r < 16 { Right12(r); }
    else if r < 20 { Right16(r); }
    else if r < 24 { Right20(r); }
    else if r < 28 { Right24(r); }
    else if r < 32 { Right28(r); }
    else if r < 36 { Right32(r); }
    else if r < 40 { Right36(r); }
    else { Right40(r); }
  }

  /** QSQ[n]. */
  function Entry(n: nat): nat
    requires n <= 510
  {
    LineRight(n / 12);
    Line(n / 12)[n % 12]
  }

  /** Every entry is what the comment says. */
  lemma {:induction false} EntryIsSquare(n: nat)
    requires n <= 510
    ensures Entry(n) == QuarterSquare(n)
  {
    hide Line, QuarterSquare;
    LineRight(n / 12);
    assert 12 * (n / 12) + n % 12 == n;
  }
}
