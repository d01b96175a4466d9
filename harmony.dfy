/**
 * Chords and scales: the interval tables, and the chord engine that names the
 * degree-th tone of a chord built on a note (inversions included), optionally
 * after finding where the note sits in the chord of another root.
 */
module Harmony {
  import opened Results
  import opened PyText
  import opened Pitch
  import opened Semitones

  /** `Note.scales`. */
  const Scales: map<string, seq<int>> := map[
    "major" := [0, 2, 4, 5, 7, 9, 11, 12],
    "harmonic minor" := [0, 2, 3, 5, 7, 8, 11, 12],
    "melodic minor" := [0, 2, 3, 5, 7, 9, 11, 12]]

  /** `Note.chords`. */
  const Chords: map<string, seq<int>> := map[
    "Maj" := [0, 4, 7], "m" := [0, 3, 7], "Maj7" := [0, 4, 7, 10], "m7" := [0, 3, 7, 10],
    "mMaj7" := [0, 3, 7, 11], "7" := [0, 4, 7, 10], "dim" := [0, 3, 6], "aug" := [0, 4, 8],
    "maug7" := [0, 3, 7, 11], "dim7" := [0, 3, 6, 10], "mM7" := [0, 3, 7, 9]]

  /** The names of `Note.scales` in the dictionary's insertion order, the order its keys are listed in. */
  const ScaleNames: seq<string> := ["major", "harmonic minor", "melodic minor"]

  /** The names of `Note.chords` in the dictionary's insertion order. */
  const ChordNames: seq<string> :=
    ["Maj", "m", "Maj7", "m7", "mMaj7", "7", "dim", "aug", "maug7", "dim7", "mM7"]

  /** The ordered key lists hold each key of their dictionary exactly once. */
  lemma NamesAreKeys()
    ensures forall name :: name in ChordNames <==> name in Chords
    ensures forall name :: name in ScaleNames <==> name in Scales
    ensures forall p, q | 0 <= p < q < |ChordNames| :: ChordNames[p] != ChordNames[q]
    ensures forall p, q | 0 <= p < q < |ScaleNames| :: ScaleNames[p] != ScaleNames[q]
  {
  }

  /** Each listed chord name is in the chord table, with a non-empty list of intervals. */
  lemma ChordNamesListed()
    ensures forall p :: 0 <= p < |ChordNames| ==> ChordNames[p] in Chords && |Chords[ChordNames[p]]| > 0
  {
  }

  /** Where a chord of the table stands in the listed order. */
  lemma ChordPosition(chord: string) returns (p: nat)
    requires chord in Chords
    ensures p < |ChordNames| && ChordNames[p] == chord
  {
    NamesAreKeys();
    p :| 0 <= p < |ChordNames| && ChordNames[p] == chord;
  }

  /** Each listed scale name is in the scale table, with a non-empty list of intervals. */
  lemma ScaleNamesListed()
    ensures forall p :: 0 <= p < |ScaleNames| ==> ScaleNames[p] in Scales && |Scales[ScaleNames[p]]| > 0
  {
  }

  /** The first scale of the table is the major scale. */
  lemma MajorIsFirst()
    ensures ScaleNames[0] in Scales && Scales[ScaleNames[0]] == [0, 2, 4, 5, 7, 9, 11, 12]
  {
  }

  /** Every chord of the table has at least three intervals, starts at 0 and stays within the octave. */
  lemma ChordsShape()
    ensures forall name | name in Chords :: |Chords[name]| >= 3 && Chords[name][0] == 0
    ensures forall name, j | name in Chords && 0 <= j < |Chords[name]| :: 0 <= Chords[name][j] < 12
  {
  }

  // ---------------------------------------------------------------------------
  // The root's spelling

  /**
   * chord()'s respelling of a root name: the same five rewrites as the constructor,
   * except that each test looks at the root as rewritten so far.
   */
  function RewriteRoot(root: string): (r: string)
    ensures forall w | w in Rewrites :: !Contains(r, w.0)
  {
    var a := RewriteStep(root, root, "Db", "C#");
    var b := RewriteStep(a, a, "D#", "Eb");
    var c := RewriteStep(b, b, "Gb", "F#");
    var d := RewriteStep(c, c, "G#", "Ab");
    var e := RewriteStep(d, d, "A#", "Bb");
    RootChainClean(root, a, b, c, d, e);
    e
  }

  lemma RootChainClean(root: string, a: string, b: string, c: string, d: string, e: string)
    requires a == RewriteStep(root, root, "Db", "C#") && b == RewriteStep(a, a, "D#", "Eb")
    requires c == RewriteStep(b, b, "Gb", "F#") && d == RewriteStep(c, c, "G#", "Ab")
    requires e == RewriteStep(d, d, "A#", "Bb")
    ensures forall w | w in Rewrites :: !Contains(e, w.0)
  {
    forall w | w in Rewrites ensures !Contains(e, w.0) {
      var x := w.0;
      assert IsRewritten(x);
      RewriteStepKeepsOut(root, root, "Db", "C#", x);
      RewriteStepKeepsOut(a, a, "D#", "Eb", x);
      RewriteStepKeepsOut(b, b, "Gb", "F#", x);
      RewriteStepKeepsOut(c, c, "G#", "Ab", x);
      RewriteStepKeepsOut(d, d, "A#", "Bb", x);
    }
  }

  /** A root already spelled canonically is left alone. */
  lemma RewriteRootCanonical(root: string)
    requires forall w | w in Rewrites :: !Contains(root, w.0)
    ensures RewriteRoot(root) == root
  {
  }

  // ---------------------------------------------------------------------------
  // Chord tones by closed formula

  /**
   * The key of tone `d >= 0` counted upwards through the inversions: interval
   * `iv[d mod L]` above the note, raised by `d div L` octaves.
   */
  function UpKey(k: int, iv: seq<int>, d: int): int
    requires |iv| >= 1 && d >= 0
  {
    k + iv[d % |iv|] + 12 * (d / |iv|)
  }

  /**
   * The offsets of the descending block: the note itself, then the intervals in
   * reverse order an octave down.
   */
  function DownOffset(iv: seq<int>, p: int): int
    requires 0 <= p <= |iv|
  {
    if p == 0 then 0 else iv[|iv| - p] - 12
  }

  /**
   * The key of tone `-m` (`m >= 1`) counted downwards: the descending block has
   * `L + 1` tones, and each repetition is another octave lower.
   */
  function DownKey(k: int, iv: seq<int>, m: int): int
    requires m >= 0
  {
    k + DownOffset(iv, m % (|iv| + 1)) - 12 * (m / (|iv| + 1))
  }

  /**
   * The chord tone of degree `d` on a note with no separate root: degree 0 is the
   * note itself, any other degree the bykey note of UpKey or DownKey.
   */
  function Voiced(n: Note, d: int, iv: seq<int>): (r: Result<Note>)
    requires |iv| >= 1
    ensures d != 0 ==> (r.Ok? <==> Key(n).Ok?)
    ensures d != 0 && r.Err? ==> r.error == Key(n).error
  {
    if d == 0 then Ok(n)
    else match Key(n)
      case Err(e) => Err(e)
      case Ok(k) => Ok(if d > 0 then ByKey(UpKey(k, iv, d)) else ByKey(DownKey(k, iv, -d)))
  }

  /** Degree `d` of the chord on `root` is a note spelled `target`. */
  predicate Matches(root: Note, iv: seq<int>, target: string, d: int)
    requires |iv| >= 1
  {
    Voiced(root, d, iv).Ok? && Voiced(root, d, iv).value.name == target
  }

  /** The first degree in `i .. 11` that satisfies `p`. */
  function FirstDegree(p: nat -> bool, i: nat): (r: Option<nat>)
    ensures r.Some? ==> i <= r.value < 12 && p(r.value)
    ensures r.Some? ==> forall j :: i <= j < r.value ==> !p(j)
    ensures r.None? ==> forall j :: i <= j < 12 ==> !p(j)
    decreases 12 - i
  {
    if i >= 12 then None
    else if p(i) then Some(i)
    else FirstDegree(p, i + 1)
  }

  /** A degree characterised as the first one in `i .. 11` that satisfies `p` is the one FirstDegree finds. */
  lemma {:induction false} FirstDegreeUnique(p: nat -> bool, i: nat, f: Option<nat>)
    requires f.Some? ==> i <= f.value < 12 && p(f.value) && forall j :: i <= j < f.value ==> !p(j)
    requires f.None? ==> forall j :: i <= j < 12 ==> !p(j)
    ensures FirstDegree(p, i) == f
    decreases 12 - i
  {
    if i < 12 && !p(i) {
      FirstDegreeUnique(p, i + 1, f);
    }
  }

  /** The first degree in `i .. 11` whose chord tone on `root` is spelled `target`. */
  function FirstMatch(root: Note, iv: seq<int>, target: string, i: nat): Option<nat>
    requires |iv| >= 1
  {
    FirstDegree(j => Matches(root, iv, target, j), i)
  }

  /**
   * The key of the root note at or below a note of key `k`, for a root whose name in
   * octave 0 has key `rk`: `((self + 120) - Note(root + "0")) % 12` semitones down.
   */
  function RootKey(k: int, rk: int): int {
    k - (k + 120 - rk) % 12
  }

  /**
   * `note.chord(degree, root, intervals)` for a root given as a name (Some) or none
   * at all (None, the note is its own root), as the code evidently intends.
   */
  function ChordSpec(n: Note, degree: Operand, root: Option<string>, iv: seq<int>): Result<Note> {
    if !degree.IntArg? then Err(NotAnInteger)
    else if |iv| < 3 then Err(TooFewIntervals)
    else if degree.i == 0 then Ok(n)
    else if root.None? then Voiced(n, degree.i, iv)
    else RootedSpec(n, degree.i, RewriteRoot(root.value), iv)
  }

  /** Tone `d` counted from the root named `rootName` (already respelled): the root note lies at or below the note. */
  function RootedSpec(n: Note, d: int, rootName: string, iv: seq<int>): Result<Note>
    requires |iv| >= 1
  {
    match Key(n)
    case Err(e) => Err(e)
    case Ok(k) =>
      match Key(Named(rootName + "0"))
      case Err(e) => Err(e)
      case Ok(rk) => ToneFromRoot(n, d, ByKey(RootKey(k, rk)), iv)
  }

  /**
   * Tone `d` of the note counted in the chord on `rootNote`: the note must be one of the
   * root's first twelve tones (by spelling), and the count starts at the first such tone.
   */
  function ToneFromRoot(n: Note, d: int, rootNote: Note, iv: seq<int>): Result<Note>
    requires |iv| >= 1
  {
    match FirstMatch(rootNote, iv, Name1(n), 0)
    case None => Err(NoteNotInChord)
    case Some(i) => Voiced(rootNote, d + i, iv)
  }

  // ---------------------------------------------------------------------------
  // Closed formulas: the arithmetic

  /** Division by a positive divisor: a quotient and a remainder in range are the only ones. */
  lemma DivModUnique(t: int, l: int, q: int, r: int)
    requires l > 0 && 0 <= r < l && t == q * l + r
    ensures t / l == q && t % l == r
  {
    var q' := t / l;
    if q' < q {
      MulMonotone(q' + 1, q, l);
    } else if q' > q {
      MulMonotone(q + 1, q', l);
    }
  }

  lemma {:induction false} MulMonotone(a: int, b: int, l: int)
    requires a <= b && l > 0
    ensures a * l <= b * l
    decreases b - a
  {
    if a < b {
      MulMonotone(a + 1, b, l);
    }
  }

  lemma MulSucc(i: int, l: int)
    ensures (i + 1) * l == i * l + l
  {
  }

  /** Going up `L` degrees is going up one octave. */
  lemma UpKeyOctave(k: int, iv: seq<int>, d: int)
    requires |iv| >= 1 && d >= 0
    ensures UpKey(k, iv, d + |iv|) == UpKey(k, iv, d) + 12
  {
    var l := |iv|;
    DivModUnique(d + l, l, d / l + 1, d % l);
  }

  /** The first `L` degrees are the chord's own intervals above the note. */
  lemma UpKeyFirstBlock(k: int, iv: seq<int>, d: int)
    requires 0 <= d < |iv|
    ensures UpKey(k, iv, d) == k + iv[d]
  {
    DivModUnique(d, |iv|, 0, d);
  }

  /** Going down `L + 1` degrees is going down one octave. */
  lemma DownKeyOctave(k: int, iv: seq<int>, m: int)
    requires m >= 0
    ensures DownKey(k, iv, m + |iv| + 1) == DownKey(k, iv, m) - 12
  {
    var l := |iv| + 1;
    DivModUnique(m + l, l, m / l + 1, m % l);
  }

  /** The first `L` degrees downwards are the intervals, last first, an octave below the note. */
  lemma DownKeyFirstBlock(k: int, iv: seq<int>, m: int)
    requires 1 <= m <= |iv|
    ensures DownKey(k, iv, m) == k + iv[|iv| - m] - 12
  {
    DivModUnique(m, |iv| + 1, 0, m);
  }

  // ---------------------------------------------------------------------------
  // The lists chord() builds

  /** The key `i` octaves above `key`, or below it when `lower`. */
  function MoveKey(key: int, i: int, lower: bool): int {
    if lower then key - 12 * i else key + 12 * i
  }

  /**
   * The key at position `t` of the list chord() builds from a first block with keys
   * `base`: entry `t mod L` of the block, moved `t div L` octaves.
   */
  function StackKey(base: seq<int>, lower: bool, t: int): int
    requires |base| >= 1 && t >= 0
  {
    MoveKey(base[t % |base|], t / |base|, lower)
  }

  /** Position `i * L + r` of the list holds entry `r` of copy `i`. */
  lemma StackKeyAt(base: seq<int>, lower: bool, i: int, r: int, t: int)
    requires 0 <= r < |base| && i >= 0 && t == i * |base| + r
    ensures StackKey(base, lower, t) == MoveKey(base[r], i, lower)
  {
    DivModUnique(t, |base|, i, r);
  }

  /**
   * The nested loops of chord(): after the first block, `blocks - 1` more copies of it,
   * copy `i` moved `i` octaves up (`j + i * 12`) or, when `lower`, down (`j - i * 12`).
   */
  method Stack(first: seq<Note>, ghost base: seq<int>, blocks: int, lower: bool) returns (notes: seq<Note>)
    requires |first| == |base| >= 1 && blocks >= 1
    requires forall t :: 0 <= t < |first| ==> Key(first[t]).Ok? && Key(first[t]).value == base[t]
    ensures |notes| == blocks * |base| && |first| <= |notes|
    ensures forall t :: 0 <= t < |first| ==> notes[t] == first[t]
    ensures forall t :: |first| <= t < |notes| ==> notes[t] == ByKey(StackKey(base, lower, t))
  {
    notes := first;
    for i := 1 to blocks
      invariant |notes| == i * |base| && |first| <= |notes|
      invariant forall t :: 0 <= t < |first| ==> notes[t] == first[t]
      invariant forall t :: |first| <= t < |notes| ==> notes[t] == ByKey(StackKey(base, lower, t))
    {
      notes := AppendCopy(notes, first, base, i, lower);
      MulSucc(i, |base|);
    }
  }

  /** One pass of the inner loop: copy `i` of the first block appended to `notes`. */
  method AppendCopy(notes: seq<Note>, first: seq<Note>, ghost base: seq<int>, i: int, lower: bool)
    returns (r: seq<Note>)
    requires |first| == |base| >= 1 && i >= 1 && |notes| == i * |base| && |first| <= |notes|
    requires forall t :: 0 <= t < |first| ==> Key(first[t]).Ok? && Key(first[t]).value == base[t]
    requires forall t :: 0 <= t < |first| ==> notes[t] == first[t]
    requires forall t :: |first| <= t < |notes| ==> notes[t] == ByKey(StackKey(base, lower, t))
    ensures |r| == |notes| + |first|
    ensures forall t :: 0 <= t < |first| ==> r[t] == first[t]
    ensures forall t :: |first| <= t < |r| ==> r[t] == ByKey(StackKey(base, lower, t))
  {
    r := notes;
    for p := 0 to |first|
      invariant |r| == |notes| + p
      invariant forall t :: 0 <= t < |first| ==> r[t] == first[t]
      invariant forall t :: |first| <= t < |r| ==> r[t] == ByKey(StackKey(base, lower, t))
    {
      StackKeyAt(base, lower, i, p, |r|);
      var moved := Moved(first[p], base[p], i, lower);
      Extend(r, first, base, lower, moved);
      r := r + [moved];
    }
  }

  /** `j + i * 12`, or `j - i * 12` when `lower`: the bykey note `i` octaves away. */
  method Moved(j: Note, ghost key: int, i: int, lower: bool) returns (moved: Note)
    requires Key(j).Ok? && Key(j).value == key
    ensures moved == ByKey(MoveKey(key, i, lower))
  {
    ghost var target := MoveKey(key, i, lower);
    var s := i * 12;
    if lower {
      SubTo(j, s, target);
      moved := Sub(j, IntArg(s)).value.note;
    } else {
      AddTo(j, s, target);
      moved := Add(j, IntArg(s)).value;
    }
  }

  /** Appending the note of the next position keeps the list described by StackKey. */
  lemma Extend(notes: seq<Note>, first: seq<Note>, base: seq<int>, lower: bool, moved: Note)
    requires |base| >= 1 && |first| <= |notes|
    requires forall t :: |first| <= t < |notes| ==> notes[t] == ByKey(StackKey(base, lower, t))
    requires moved == ByKey(StackKey(base, lower, |notes|))
    ensures forall t :: |first| <= t < |notes| + 1 ==> (notes + [moved])[t] == ByKey(StackKey(base, lower, t))
  {
    forall t | |first| <= t < |notes| + 1
      ensures (notes + [moved])[t] == ByKey(StackKey(base, lower, t))
    {
      if t == |notes| {
        assert (notes + [moved])[t] == moved;
      } else {
        assert (notes + [moved])[t] == notes[t];
      }
    }
  }

  /** `j + s` is the bykey note of any key equal to `key(j) + s`. */
  lemma AddTo(n: Note, s: int, k: int)
    requires Key(n).Ok? && Key(n).value + s == k
    ensures Add(n, IntArg(s)).Ok? && Add(n, IntArg(s)).value == ByKey(k)
  {
    AddKey(n, s);
    ByKeyCongruence();
  }

  /** The keys of the ascending first block: each interval above the note's key `k`. */
  function UpBase(k: int, iv: seq<int>): (b: seq<int>)
    ensures |b| == |iv| && forall t :: 0 <= t < |iv| ==> b[t] == k + iv[t]
  {
    seq(|iv|, t requires 0 <= t < |iv| => k + iv[t])
  }

  /** The keys of the descending first block: the note, then the intervals reversed an octave down. */
  function DownBase(k: int, iv: seq<int>): (b: seq<int>)
    ensures |b| == |iv| + 1 && forall t :: 0 <= t <= |iv| ==> b[t] == k + DownOffset(iv, t)
  {
    seq(|iv| + 1, t requires 0 <= t <= |iv| => k + DownOffset(iv, t))
  }

  /** Tone `d` upwards is entry `d` of the ascending list. */
  lemma UpKeyStacked(k: int, iv: seq<int>, d: int)
    requires |iv| >= 1 && d >= 0
    ensures d < |iv| ==> UpKey(k, iv, d) == UpBase(k, iv)[d]
    ensures UpKey(k, iv, d) == StackKey(UpBase(k, iv), false, d)
  {
    if d < |iv| {
      UpKeyFirstBlock(k, iv, d);
    }
  }

  /** Tone `-m` downwards is entry `m` of the descending list. */
  lemma DownKeyStacked(k: int, iv: seq<int>, m: int)
    requires m >= 0
    ensures m <= |iv| ==> DownKey(k, iv, m) == DownBase(k, iv)[m]
    ensures DownKey(k, iv, m) == StackKey(DownBase(k, iv), true, m)
  {
    if m <= |iv| {
      DivModUnique(m, |iv| + 1, 0, m);
    }
  }

  /** A list of `blocks` copies of a block of two or more notes is longer than `blocks`. */
  lemma BlocksLonger(blocks: int, l: int)
    requires blocks >= 1 && l >= 2
    ensures blocks < blocks * l
  {
    MulMonotone(2, l, blocks);
  }

  /** Appending the bykey note of the next key keeps a block described by its keys. */
  lemma ExtendKeys(first: seq<Note>, base: seq<int>, lo: int, x: Note)
    requires 0 <= lo && |first| < |base|
    requires forall u :: lo <= u < |first| ==> first[u] == ByKey(base[u])
    requires x == ByKey(base[|first|])
    ensures forall u :: lo <= u < |first| + 1 ==> (first + [x])[u] == ByKey(base[u])
  {
    forall u | lo <= u < |first| + 1
      ensures (first + [x])[u] == ByKey(base[u])
    {
      if u == |first| {
        assert (first + [x])[u] == x;
      } else {
        assert (first + [x])[u] == first[u];
      }
    }
  }

  /** A block of bykey notes has exactly the keys it was built from. */
  lemma BlockKeys(first: seq<Note>, base: seq<int>, lo: int)
    requires 0 <= lo && |first| <= |base|
    requires forall u :: lo <= u < |first| ==> first[u] == ByKey(base[u])
    ensures forall u :: lo <= u < |first| ==> Key(first[u]).Ok? && Key(first[u]).value == base[u]
  {
    ByKeyFacts();
  }

  /** `[self + i for i in intervals]`: fails as soon as `self + i` does. */
  method UpBlock(n: Note, iv: seq<int>) returns (r: Result<seq<Note>>)
    requires |iv| >= 1
    ensures r.Ok? <==> Key(n).Ok?
    ensures r.Err? ==> r.error == Key(n).error
    ensures r.Ok? ==> |r.value| == |iv| && forall t :: 0 <= t < |iv| ==> r.value[t] == ByKey(UpBase(Key(n).value, iv)[t])
    ensures r.Ok? ==> forall t :: 0 <= t < |iv| ==> Key(r.value[t]).Ok? && Key(r.value[t]).value == UpBase(Key(n).value, iv)[t]
  {
    ghost var base := if Key(n).Ok? then UpBase(Key(n).value, iv) else [];
    var first: seq<Note> := [];
    for t := 0 to |iv|
      invariant |first| == t
      invariant t > 0 ==> Key(n).Ok?
      invariant forall u :: 0 <= u < t ==> first[u] == ByKey(base[u])
    {
      var s := iv[t];
      var x := Add(n, IntArg(s));
      if x.Err? {
        return Err(x.error);
      }
      AddTo(n, s, base[t]);
      ExtendKeys(first, base, 0, x.value);
      first := first + [x.value];
    }
    BlockKeys(first, base, 0);
    return Ok(first);
  }

  /** `[self] + [self + (i - 12) for i in reversed(intervals)]`. */
  method DownBlock(n: Note, iv: seq<int>) returns (r: Result<seq<Note>>)
    requires |iv| >= 1
    ensures r.Ok? <==> Key(n).Ok?
    ensures r.Err? ==> r.error == Key(n).error
    ensures r.Ok? ==> |r.value| == |iv| + 1 && r.value[0] == n
    ensures r.Ok? ==> forall t :: 1 <= t <= |iv| ==> r.value[t] == ByKey(DownBase(Key(n).value, iv)[t])
    ensures r.Ok? ==> forall t :: 0 <= t <= |iv| ==> Key(r.value[t]).Ok? && Key(r.value[t]).value == DownBase(Key(n).value, iv)[t]
  {
    ghost var base := if Key(n).Ok? then DownBase(Key(n).value, iv) else [];
    var first: seq<Note> := [n];
    for p := 1 to |iv| + 1
      invariant |first| == p && first[0] == n
      invariant p > 1 ==> Key(n).Ok?
      invariant forall u :: 1 <= u < p ==> first[u] == ByKey(base[u])
    {
      var s := iv[|iv| - p] - 12;
      var x := Add(n, IntArg(s));
      if x.Err? {
        return Err(x.error);
      }
      AddTo(n, s, base[p]);
      ExtendKeys(first, base, 1, x.value);
      first := first + [x.value];
    }
    BlockKeys(first, base, 1);
    return Ok(first);
  }

  /** The ascending branch of chord(): tone `d > 0` of the chord on the note itself. */
  method UpChord(n: Note, d: int, iv: seq<int>) returns (r: Result<Note>)
    requires |iv| >= 3 && d > 0
    ensures r.Ok? <==> Voiced(n, d, iv).Ok?
    ensures r.Ok? ==> r.value == Voiced(n, d, iv).value
    ensures r.Err? ==> r.error == Voiced(n, d, iv).error
  {
    var block := UpBlock(n, iv);
    if block.Err? {
      return Err(block.error);
    }
    ghost var k := Key(n).value;
    ghost var base := UpBase(k, iv);
    var notes := Stack(block.value, base, d, false);
    BlocksLonger(d, |base|);
    UpKeyStacked(k, iv, d);
    r := Ok(notes[d]);
  }

  /** The descending branch of chord(): tone `-m < 0` of the chord on the note itself. */
  method DownChord(n: Note, m: int, iv: seq<int>) returns (r: Result<Note>)
    requires |iv| >= 3 && m > 0
    ensures r.Ok? <==> Voiced(n, -m, iv).Ok?
    ensures r.Ok? ==> r.value == Voiced(n, -m, iv).value
    ensures r.Err? ==> r.error == Voiced(n, -m, iv).error
  {
    var block := DownBlock(n, iv);
    if block.Err? {
      return Err(block.error);
    }
    ghost var k := Key(n).value;
    ghost var base := DownBase(k, iv);
    var notes := Stack(block.value, base, m, true);
    BlocksLonger(m, |base|);
    DownKeyStacked(k, iv, m);
    r := Ok(notes[m]);
  }

  lemma RootKeyOfInterval(k: int, rk: int, interval: int)
    requires interval == k + 120 - rk
    ensures RootKey(k, rk) == k - interval % 12
  {
  }

  /** `(self + 120) - Note(root + "0")`: the interval, in semitones, from the root in octave 0 up to the note raised by ten octaves. */
  method Distance(n: Note, named: Note) returns (r: Result<int>)
    ensures r.Ok? <==> Key(n).Ok? && Key(named).Ok?
    ensures r.Err? ==> r.error == if Key(n).Err? then Key(n).error else Key(named).error
    ensures r.Ok? ==> r.value == Key(n).value + 120 - Key(named).value
  {
    var up := Add(n, IntArg(120));
    if up.Err? {
      return Err(up.error);
    }
    AddKey(n, 120);
    var interval := Sub(up.value, NoteArg(named));
    if interval.Err? {
      return Err(interval.error);
    }
    r := Ok(interval.value.semitones);
  }

  /**
   * The root note of chord() with a named root: `self - difference`, where `difference`
   * is `((self + 120) - Note(root + "0")) % 12`.
   */
  method RootNote(n: Note, rootName: string) returns (r: Result<Note>)
    ensures r.Ok? <==> Key(n).Ok? && Key(Named(rootName + "0")).Ok?
    ensures r.Err? ==> r.error == if Key(n).Err? then Key(n).error else Key(Named(rootName + "0")).error
    ensures r.Ok? ==> r.value == ByKey(RootKey(Key(n).value, Key(Named(rootName + "0")).value))
  {
    var interval := Distance(n, Named(rootName + "0"));
    if interval.Err? {
      return Err(interval.error);
    }
    var difference := interval.value % 12;
    RootKeyOfInterval(Key(n).value, Key(Named(rootName + "0")).value, interval.value);
    SubTo(n, difference, RootKey(Key(n).value, Key(Named(rootName + "0")).value));
    r := Ok(Sub(n, IntArg(difference)).value.note);
  }

  /** A degree characterised as the first match in `0 .. 11` is the one FirstMatch finds. */
  lemma FirstMatchUnique(root: Note, iv: seq<int>, target: string, f: Option<nat>)
    requires |iv| >= 1
    requires f.Some? ==> f.value < 12 && Matches(root, iv, target, f.value)
    requires f.Some? ==> forall j :: 0 <= j < f.value ==> !Matches(root, iv, target, j)
    requires f.None? ==> forall j :: 0 <= j < 12 ==> !Matches(root, iv, target, j)
    ensures FirstMatch(root, iv, target, 0) == f
  {
    FirstDegreeUnique(j => Matches(root, iv, target, j), 0, f);
  }

  /** With no root, chord() is the closed-form tone. */
  lemma ChordSpecNoRoot(n: Note, d: int, iv: seq<int>)
    requires |iv| >= 3
    ensures ChordSpec(n, IntArg(d), None, iv) == Voiced(n, d, iv)
  {
  }

  /** With a named root whose note or root has no key, chord() fails with that key's error. */
  lemma RootedSpecError(n: Note, d: int, rootName: string, iv: seq<int>)
    requires |iv| >= 1
    requires Key(n).Err? || Key(Named(rootName + "0")).Err?
    ensures RootedSpec(n, d, rootName, iv).Err?
    ensures RootedSpec(n, d, rootName, iv).error == if Key(n).Err? then Key(n).error else Key(Named(rootName + "0")).error
  {
  }

  /** With both keys, chord() counts from the root note at or below the note. */
  lemma RootedSpecTone(n: Note, d: int, rootName: string, iv: seq<int>)
    requires |iv| >= 1
    requires Key(n).Ok? && Key(Named(rootName + "0")).Ok?
    ensures RootedSpec(n, d, rootName, iv) == ToneFromRoot(n, d, ByKey(RootKey(Key(n).value, Key(Named(rootName + "0")).value)), iv)
  {
  }

  /** The tone found in the root's chord, when the note is among its first twelve tones. */
  lemma ToneFromRootFound(n: Note, d: int, rootNote: Note, iv: seq<int>, i: nat, degree: int)
    requires |iv| >= 1 && FirstMatch(rootNote, iv, Name1(n), 0) == Some(i) && degree == d + i
    ensures ToneFromRoot(n, d, rootNote, iv) == Voiced(rootNote, degree, iv)
  {
  }

  lemma NoMatchBelow(root: Note, iv: seq<int>, target: string, i: int)
    requires |iv| >= 1
    requires forall j :: 0 <= j < i ==> !Matches(root, iv, target, j)
    requires !Matches(root, iv, target, i)
    ensures forall j :: 0 <= j < i + 1 ==> !Matches(root, iv, target, j)
  {
    forall j | 0 <= j < i + 1
      ensures !Matches(root, iv, target, j)
    {
      if j == i {
        assert !Matches(root, iv, target, i);
      }
    }
  }

  /**
   * The search loop of chord(): the first degree `i` in `0 .. 11` whose tone in the chord
   * on `rootNote` is spelled like the note; `isThere` becomes 1 when there is one.
   */
  method FindInChord(rootNote: Note, iv: seq<int>, target: string) returns (isThere: int, difference: int)
    requires |iv| >= 3 && Key(rootNote).Ok?
    ensures isThere == 0 <==> FirstMatch(rootNote, iv, target, 0).None?
    ensures isThere != 0 ==> isThere == 1 && difference == FirstMatch(rootNote, iv, target, 0).value
    decreases 1
  {
    isThere := 0;
    difference := 0;
    for i := 0 to 12
      invariant isThere == 0
      invariant forall j :: 0 <= j < i ==> !Matches(rootNote, iv, target, j)
    {
      var c := Chord(rootNote, IntArg(i), None, iv);
      ChordSpecNoRoot(rootNote, i, iv);
      if c.value.name == target {
        isThere := isThere + 1;
        difference := i;
        break;
      }
      NoMatchBelow(rootNote, iv, target, i);
    }
    FirstMatchUnique(rootNote, iv, target, if isThere == 0 then None else Some(difference));
  }

  /**
   * `note.chord(degree, root, intervals)`: the root respelled, the checks on the degree
   * and the intervals, then the tone counted from the note itself (no root) or from
   * the root note.
   */
  method Chord(n: Note, degree: Operand, root: Option<string>, iv: seq<int>) returns (r: Result<Note>)
    ensures r.Ok? <==> ChordSpec(n, degree, root, iv).Ok?
    ensures r.Ok? ==> r.value == ChordSpec(n, degree, root, iv).value
    ensures r.Err? ==> r.error == ChordSpec(n, degree, root, iv).error
    decreases if root.Some? then 3 else 0
  {
    var rootName := if root.Some? then Some(RewriteRoot(root.value)) else None;
    if !degree.IntArg? {
      return Err(NotAnInteger);
    }
    if |iv| < 3 {
      return Err(TooFewIntervals);
    }
    var d := degree.i;
    if d == 0 {
      return Ok(n);
    }
    if rootName.None? {
      if d > 0 {
        r := UpChord(n, d, iv);
      } else {
        r := DownChord(n, -d, iv);
      }
      ChordSpecNoRoot(n, d, iv);
      return;
    }
    r := RootedChord(n, d, rootName.value, iv);
  }

  /**
   * The named-root branch of chord(): the root note below the note, the search for the
   * note among the root's tones, then the tone `d` further on.
   */
  method RootedChord(n: Note, d: int, rootName: string, iv: seq<int>) returns (r: Result<Note>)
    requires |iv| >= 3
    ensures r.Ok? <==> RootedSpec(n, d, rootName, iv).Ok?
    ensures r.Ok? ==> r.value == RootedSpec(n, d, rootName, iv).value
    ensures r.Err? ==> r.error == RootedSpec(n, d, rootName, iv).error
    decreases 2
  {
    var rootNote := RootNote(n, rootName);
    if rootNote.Err? {
      RootedSpecError(n, d, rootName, iv);
      return Err(rootNote.error);
    }
    RootedSpecTone(n, d, rootName, iv);
    ByKeyFacts();
    var isThere, difference := FindInChord(rootNote.value, iv, Name1(n));
    if isThere == 0 {
      return Err(NoteNotInChord);
    }
    var degree := d + difference;
    ToneFromRootFound(n, d, rootNote.value, iv, difference, degree);
    r := Chord(rootNote.value, IntArg(degree), None, iv);
    ChordSpecNoRoot(rootNote.value, degree, iv);
  }

  // ---------------------------------------------------------------------------
  // What the tones are

  /** The root note lies at most eleven semitones below the note, on the root's pitch class. */
  lemma RootKeyBelow(k: int, rk: int)
    ensures RootKey(k, rk) <= k < RootKey(k, rk) + 12
    ensures (RootKey(k, rk) - rk) % 12 == 0
  {
    var t := k + 120 - rk;
    DivModUnique(RootKey(k, rk) - rk, 12, t / 12 - 10, 0);
  }

  /** The first tones upwards are the intervals above the note. */
  lemma VoicedFirstBlock(n: Note, d: int, iv: seq<int>)
    requires 0 < d < |iv| && Key(n).Ok?
    ensures Voiced(n, d, iv).Ok? && Key(Voiced(n, d, iv).value).Ok?
    ensures Key(Voiced(n, d, iv).value).value == Key(n).value + iv[d]
  {
    UpKeyFirstBlock(Key(n).value, iv, d);
    ByKeyFacts();
  }

  /** The first tones downwards are the intervals, last first, an octave below the note. */
  lemma VoicedFirstBlockDown(n: Note, m: int, iv: seq<int>)
    requires 1 <= m <= |iv| && Key(n).Ok?
    ensures Voiced(n, -m, iv).Ok? && Key(Voiced(n, -m, iv).value).Ok?
    ensures Key(Voiced(n, -m, iv).value).value == Key(n).value + iv[|iv| - m] - 12
  {
    DownKeyFirstBlock(Key(n).value, iv, m);
    ByKeyFacts();
  }

  /** `L` degrees further up is the same tone an octave higher. */
  lemma VoicedOctaveUp(n: Note, d: int, iv: seq<int>)
    requires |iv| >= 1 && d > 0 && Key(n).Ok?
    ensures Voiced(n, d, iv).Ok? && Voiced(n, d + |iv|, iv).Ok?
    ensures Key(Voiced(n, d + |iv|, iv).value).Ok? && Key(Voiced(n, d, iv).value).Ok?
    ensures Key(Voiced(n, d + |iv|, iv).value).value == Key(Voiced(n, d, iv).value).value + 12
  {
    UpKeyOctave(Key(n).value, iv, d);
    ByKeyFacts();
  }

  /** On an 8-entry scale from 0 to 12, degrees 7 and 8 are both the note's octave. */
  lemma VoicedScaleOctave(n: Note, iv: seq<int>)
    requires |iv| == 8 && iv[0] == 0 && iv[7] == 12 && Key(n).Ok?
    ensures Voiced(n, 7, iv).Ok? && Key(Voiced(n, 7, iv).value).Ok?
    ensures Key(Voiced(n, 7, iv).value).value == Key(n).value + 12
    ensures Voiced(n, 8, iv).Ok? && Key(Voiced(n, 8, iv).value).Ok?
    ensures Key(Voiced(n, 8, iv).value).value == Key(n).value + 12
  {
    VoicedFirstBlock(n, 7, iv);
    UpKeyOctave(Key(n).value, iv, 0);
    UpKeyFirstBlock(Key(n).value, iv, 0);
    ByKeyFacts();
  }

  /** `L + 1` degrees further down is the same tone an octave lower. */
  lemma VoicedOctaveDown(n: Note, m: int, iv: seq<int>)
    requires |iv| >= 1 && m > 0 && Key(n).Ok?
    ensures Voiced(n, -m, iv).Ok? && Voiced(n, -(m + |iv| + 1), iv).Ok?
    ensures Key(Voiced(n, -(m + |iv| + 1), iv).value).Ok? && Key(Voiced(n, -m, iv).value).Ok?
    ensures Key(Voiced(n, -(m + |iv| + 1), iv).value).value == Key(Voiced(n, -m, iv).value).value - 12
  {
    DownKeyOctave(Key(n).value, iv, m);
    ByKeyFacts();
  }

  // ---------------------------------------------------------------------------
  // The named chords

  /** chord() with the intervals `Note.chords[name]`, or the KeyError when there is no such chord. */
  method NamedChord(n: Note, degree: Operand, root: Option<string>, name: string) returns (r: Result<Note>)
    ensures name !in Chords ==> r.Err? && r.error == UnknownChordName(name)
    ensures name in Chords ==>
      && (r.Ok? <==> ChordSpec(n, degree, root, Chords[name]).Ok?)
      && (r.Ok? ==> r.value == ChordSpec(n, degree, root, Chords[name]).value)
      && (r.Err? ==> r.error == ChordSpec(n, degree, root, Chords[name]).error)
  {
    if name !in Chords {
      return Err(UnknownChordName(name));
    }
    r := Chord(n, degree, root, Chords[name]);
  }

  /** `note.Maj(degree, root)`: the major chord, intervals (0, 4, 7). */
  method Maj(n: Note, degree: Operand, root: Option<string>) returns (r: Result<Note>)
    ensures r.Ok? <==> ChordSpec(n, degree, root, [0, 4, 7]).Ok?
    ensures r.Ok? ==> r.value == ChordSpec(n, degree, root, [0, 4, 7]).value
    ensures r.Err? ==> r.error == ChordSpec(n, degree, root, [0, 4, 7]).error
  {
    r := NamedChord(n, degree, root, "Maj");
  }

  /** `note.d7(degree, root)`: the dominant seventh chord, intervals (0, 4, 7, 10). */
  method D7(n: Note, degree: Operand, root: Option<string>) returns (r: Result<Note>)
    ensures r.Ok? <==> ChordSpec(n, degree, root, [0, 4, 7, 10]).Ok?
    ensures r.Ok? ==> r.value == ChordSpec(n, degree, root, [0, 4, 7, 10]).value
    ensures r.Err? ==> r.error == ChordSpec(n, degree, root, [0, 4, 7, 10]).error
  {
    r := NamedChord(n, degree, root, "7");
  }

  /** `note.m(degree, root)`: the minor chord, intervals (0, 3, 7). */
  method Minor(n: Note, degree: Operand, root: Option<string>) returns (r: Result<Note>)
    ensures r.Ok? <==> ChordSpec(n, degree, root, [0, 3, 7]).Ok?
    ensures r.Ok? ==> r.value == ChordSpec(n, degree, root, [0, 3, 7]).value
    ensures r.Err? ==> r.error == ChordSpec(n, degree, root, [0, 3, 7]).error
  {
    r := NamedChord(n, degree, root, "m");
  }

  /** `note.m7(degree, root)`: the minor seventh chord, intervals (0, 3, 7, 10). */
  method Minor7(n: Note, degree: Operand, root: Option<string>) returns (r: Result<Note>)
    ensures r.Ok? <==> ChordSpec(n, degree, root, [0, 3, 7, 10]).Ok?
    ensures r.Ok? ==> r.value == ChordSpec(n, degree, root, [0, 3, 7, 10]).value
    ensures r.Err? ==> r.error == ChordSpec(n, degree, root, [0, 3, 7, 10]).error
  {
    r := NamedChord(n, degree, root, "m7");
  }

  /** `note.maug7(degree, root)`: the chord listed as "maug7", intervals (0, 3, 7, 11). */
  method MinorAug7(n: Note, degree: Operand, root: Option<string>) returns (r: Result<Note>)
    ensures r.Ok? <==> ChordSpec(n, degree, root, [0, 3, 7, 11]).Ok?
    ensures r.Ok? ==> r.value == ChordSpec(n, degree, root, [0, 3, 7, 11]).value
    ensures r.Err? ==> r.error == ChordSpec(n, degree, root, [0, 3, 7, 11]).error
  {
    r := NamedChord(n, degree, root, "maug7");
  }

  /** `note.dim(degree, root)`: the diminished chord, intervals (0, 3, 6). */
  method Dim(n: Note, degree: Operand, root: Option<string>) returns (r: Result<Note>)
    ensures r.Ok? <==> ChordSpec(n, degree, root, [0, 3, 6]).Ok?
    ensures r.Ok? ==> r.value == ChordSpec(n, degree, root, [0, 3, 6]).value
    ensures r.Err? ==> r.error == ChordSpec(n, degree, root, [0, 3, 6]).error
  {
    r := NamedChord(n, degree, root, "dim");
  }

  /** `note.dim7(degree, root)`: the diminished seventh chord, intervals (0, 3, 6, 10). */
  method Dim7(n: Note, degree: Operand, root: Option<string>) returns (r: Result<Note>)
    ensures r.Ok? <==> ChordSpec(n, degree, root, [0, 3, 6, 10]).Ok?
    ensures r.Ok? ==> r.value == ChordSpec(n, degree, root, [0, 3, 6, 10]).value
    ensures r.Err? ==> r.error == ChordSpec(n, degree, root, [0, 3, 6, 10]).error
  {
    r := NamedChord(n, degree, root, "dim7");
  }

  /** `note.M7(degree, root)`: the table has no chord "M7", so the lookup always raises KeyError. */
  method M7(n: Note, degree: Operand, root: Option<string>) returns (r: Result<Note>)
    ensures r.Err? && r.error == UnknownChordName("M7")
  {
    r := NamedChord(n, degree, root, "M7");
  }

  /** `note.m7dim(degree, root)`: the table has no chord "m7dim", so the lookup always raises KeyError. */
  method Minor7Dim(n: Note, degree: Operand, root: Option<string>) returns (r: Result<Note>)
    ensures r.Err? && r.error == UnknownChordName("m7dim")
  {
    r := NamedChord(n, degree, root, "m7dim");
  }

  // ---------------------------------------------------------------------------
  // chord() as written

  /** chord()'s `root` argument as Python sees it: its default is the int 0. */
  datatype RootArg = IntRoot(i: int) | StrRoot(s: string)

  /**
   * chord() as written: `"Db" in root` raises TypeError on an int root, and that
   * includes the default 0 and the recursive calls, which pass no root. So the
   * named-root branch fails as soon as both keys exist.
   */
  function ChordAsWritten(n: Note, degree: Operand, root: RootArg, iv: seq<int>): Result<Note> {
    if root.IntRoot? then Err(RootNotAString)
    else if !degree.IntArg? then Err(NotAnInteger)
    else if |iv| < 3 then Err(TooFewIntervals)
    else if degree.i == 0 then Ok(n)
    else match Key(n)
      case Err(e) => Err(e)
      case Ok(_) =>
        match Key(Named(RewriteRoot(root.s) + "0"))
        case Err(e) => Err(e)
        case Ok(_) => Err(RootNotAString)
  }

  /** As written, chord() never returns anything but the note itself at degree 0. */
  lemma ChordAsWrittenOnlyDegreeZero(n: Note, degree: Operand, root: RootArg, iv: seq<int>)
    ensures ChordAsWritten(n, degree, root, iv).Ok? ==>
      degree == IntArg(0) && root.StrRoot? && ChordAsWritten(n, degree, root, iv).value == n
  {
  }

  /** With the default root, every non-zero degree of a note with a key raises as written, and has a tone as intended. */
  lemma ChordAsWrittenDefaultRootFails(n: Note, d: int, iv: seq<int>)
    requires Key(n).Ok? && |iv| >= 3 && d != 0
    ensures ChordAsWritten(n, IntArg(d), IntRoot(0), iv).Err?
    ensures ChordAsWritten(n, IntArg(d), IntRoot(0), iv).error == RootNotAString
    ensures ChordSpec(n, IntArg(d), None, iv).Ok?
  {
    ChordSpecNoRoot(n, d, iv);
  }
}
