/**
 * Pitch naming and keys: the circular table of the twelve pitch-class names,
 * the Note value with its enharmonic rewriting, and the conversions between a
 * note's name and its MIDI-style key (A4 = 69).
 */
module Pitch {
  import opened Results
  import opened PyText

  /** The twelve pitch-class names, C = 0 up to B = 11 (`Note.sets`). */
  const Sets: seq<string> := ["C", "C#", "D", "Eb", "E", "F", "F#", "G", "Ab", "A", "Bb", "B"]

  /** `Note.sets[i]` for an int index: the circular list wraps any index, negative ones too, modulo 12. */
  function SetsAt(i: int): string {
    Sets[i % 12]
  }

  /** Indices twelve apart name the same pitch class. */
  lemma SetsAtPeriodic(i: int, m: int)
    ensures SetsAt(i + 12 * m) == SetsAt(i)
  {
    assert (i + 12 * m) % 12 == i % 12;
  }

  /** The spelling rewrites applied at construction, in the order they are tried. */
  const Rewrites: seq<(string, string)> := [("Db", "C#"), ("D#", "Eb"), ("Gb", "F#"), ("G#", "Ab"), ("A#", "Bb")]

  const DefaultTimbre: seq<real> := SineTimbre(51)

  /** The default timbre `[1] + 50*[0]`: a pure sine, fundamental only, over 51 harmonics. */
  function SineTimbre(harmonics: nat): (r: seq<real>)
    requires harmonics >= 1
    ensures |r| == harmonics && r[0] == 1.0
    ensures forall i :: 1 <= i < |r| ==> r[i] == 0.0
  {
    seq(harmonics, i => if i == 0 then 1.0 else 0.0)
  }

  /**
   * A note as constructed by `Note(name, duration, dynamic, timbre)`: the name as given
   * and the three attributes; the rewritten spelling `name1` is derived, see Name1.
   */
  datatype Note = Note(name: string, duration: real, dynamic: real, timbre: seq<real>)

  /** `Note(name)` with the default duration 1, dynamic 0.25 and timbre. */
  function Named(name: string): Note {
    Note(name, 1.0, 0.25, DefaultTimbre)
  }

  /** One rewrite of the constructor: tested on the original name, applied to the spelling so far. */
  function RewriteStep(current: string, original: string, pat: string, rep: string): string
    requires |pat| == 2
  {
    if Contains(original, pat) then Replace(current, pat, rep) else current
  }

  predicate IsRewritten(pat: string) {
    exists w :: w in Rewrites && w.0 == pat
  }

  /** A rewrite step removes its own pattern (when tested) and creates none of the five patterns. */
  lemma RewriteStepKeepsOut(current: string, original: string, pat: string, rep: string, x: string)
    requires (pat, rep) in Rewrites && IsRewritten(x)
    ensures Contains(RewriteStep(current, original, pat, rep), x) ==> Contains(current, x)
    ensures Contains(original, pat) ==> !Contains(RewriteStep(current, original, pat, rep), pat)
  {
    if Contains(original, pat) {
      ReplaceKeepsOut(current, pat, rep, x);
      ReplaceKeepsOut(current, pat, rep, pat);
    }
  }

  /** `name1`: the name with Db, D#, Gb, G# and A# respelled as C#, Eb, F#, Ab and Bb. */
  function Enharmonic(name: string): (r: string)
    ensures forall w | w in Rewrites :: !Contains(r, w.0)
    ensures (forall w | w in Rewrites :: !Contains(name, w.0)) ==> r == name
  {
    var a := RewriteStep(name, name, "Db", "C#");
    var b := RewriteStep(a, name, "D#", "Eb");
    var c := RewriteStep(b, name, "Gb", "F#");
    var d := RewriteStep(c, name, "G#", "Ab");
    var e := RewriteStep(d, name, "A#", "Bb");
    RewriteChainClean(name, a, b, c, d, e);
    e
  }

  /** After the five steps none of the five patterns is left. */
  lemma RewriteChainClean(name: string, a: string, b: string, c: string, d: string, e: string)
    requires a == RewriteStep(name, name, "Db", "C#") && b == RewriteStep(a, name, "D#", "Eb")
    requires c == RewriteStep(b, name, "Gb", "F#") && d == RewriteStep(c, name, "G#", "Ab")
    requires e == RewriteStep(d, name, "A#", "Bb")
    ensures forall w | w in Rewrites :: !Contains(e, w.0)
  {
    forall w | w in Rewrites ensures !Contains(e, w.0) {
      var x := w.0;
      assert IsRewritten(x);
      RewriteStepKeepsOut(name, name, "Db", "C#", x);
      RewriteStepKeepsOut(a, name, "D#", "Eb", x);
      RewriteStepKeepsOut(b, name, "Gb", "F#", x);
      RewriteStepKeepsOut(c, name, "G#", "Ab", x);
      RewriteStepKeepsOut(d, name, "A#", "Bb", x);
    }
  }

  function Name1(n: Note): string {
    Enharmonic(n.name)
  }

  /** The characters set() keeps: letters, '#' and 'b'. */
  predicate IsPitchChar(c: char) {
    IsAsciiLetter(c) || c == '#' || c == 'b'
  }

  /** The pitch letters of a spelling, in order; specifies SetOf. */
  function PitchLetters(s: string): (r: string)
    ensures |r| <= |s|
    ensures forall i :: 0 <= i < |r| ==> IsPitchChar(r[i])
    ensures (forall i :: 0 <= i < |s| ==> IsPitchChar(s[i])) ==> r == s
    ensures (forall i :: 0 <= i < |s| ==> !IsPitchChar(s[i])) ==> r == ""
    decreases |s|
  {
    if |s| == 0 then ""
    else (if IsPitchChar(s[0]) then [s[0]] else "") + PitchLetters(s[1..])
  }

  lemma {:induction false} PitchLettersConcat(a: string, b: string)
    ensures PitchLetters(a + b) == PitchLetters(a) + PitchLetters(b)
    decreases |a|
  {
    if |a| > 0 {
      assert (a + b)[1..] == a[1..] + b;
      PitchLettersConcat(a[1..], b);
    } else {
      assert a + b == b;
    }
  }

  /** `set()`: walks the rewritten spelling and keeps its pitch letters. */
  method SetOf(n: Note) returns (letters: string)
    ensures letters == PitchLetters(Name1(n))
  {
    var name1 := Name1(n);
    letters := "";
    for i := 0 to |name1|
      invariant letters == PitchLetters(name1[..i])
    {
      PitchLettersConcat(name1[..i], [name1[i]]);
      assert name1[..i + 1] == name1[..i] + [name1[i]];
      if IsPitchChar(name1[i]) {
        letters := letters + [name1[i]];
      }
    }
    assert name1[..|name1|] == name1;
  }

  /**
   * `octave()` on a spelling: the spelling with its pitch letters removed (str.replace of
   * the whole letter string), then every '#' and 'b', read by int().
   */
  function OctaveOf(name1: string): Result<int> {
    var letters := PitchLetters(name1);
    // str.replace with an empty pattern and an empty replacement returns the string unchanged
    var rest := if |letters| == 0 then name1 else Replace(name1, letters, "");
    var noSharp := if Contains(rest, "#") then Replace(rest, "#", "") else rest;
    var digits := if Contains(noSharp, "b") then Replace(noSharp, "b", "") else noSharp;
    match ParseInt(digits)
    case None => Err(MalformedOctave(digits))
    case Some(o) => Ok(o)
  }

  function Octave(n: Note): Result<int> {
    OctaveOf(Name1(n))
  }

  /** `note_index()` on a spelling: the position of its pitch letters in the table. */
  function NoteIndexOf(name1: string): (r: Result<nat>)
    ensures r.Ok? ==> r.value < 12 && Sets[r.value] == PitchLetters(name1)
    ensures r.Err? <==> PitchLetters(name1) !in Sets
  {
    var letters := PitchLetters(name1);
    match IndexOf(Sets, letters)
    case None => Err(UnknownPitchName(letters))
    case Some(i) => Ok(i)
  }

  function NoteIndex(n: Note): Result<nat> {
    NoteIndexOf(Name1(n))
  }

  /** `key()` on a spelling: pitch-class index plus twelve per octave above octave -1. */
  function KeyOf(name1: string): (r: Result<int>)
    ensures r.Ok? <==> PitchLetters(name1) in Sets && OctaveOf(name1).Ok?
    ensures PitchLetters(name1) !in Sets ==> r.Err? && r.error == UnknownPitchName(PitchLetters(name1))
    ensures PitchLetters(name1) in Sets && OctaveOf(name1).Err? ==> r.Err? && r.error == OctaveOf(name1).error
  {
    match NoteIndexOf(name1)
    case Err(e) => Err(e)
    case Ok(i) =>
      match OctaveOf(name1)
      case Err(e) => Err(e)
      case Ok(o) => Ok(i + 12 * (o + 1))
  }

  /** A key decodes back to its spelling: its pitch class names the letters, its octave is key // 12 - 1. */
  lemma KeyDecodes(name1: string)
    requires KeyOf(name1).Ok?
    ensures Sets[KeyOf(name1).value % 12] == PitchLetters(name1)
    ensures KeyOf(name1).value / 12 - 1 == OctaveOf(name1).value
  {
    var i, o := NoteIndexOf(name1).value, OctaveOf(name1).value;
    Div12(KeyOf(name1).value, o + 1, i);
  }

  /** `key()`: the key of the rewritten spelling, so two notes with the same spelling share it. */
  function Key(n: Note): Result<int> {
    KeyOf(Name1(n))
  }

  /** Division by twelve: a quotient and a remainder in range are the only ones. */
  lemma Div12(a: int, q: int, r: int)
    requires 0 <= r < 12 && a == 12 * q + r
    ensures a / 12 == q && a % 12 == r
  {
  }

  /** `Note.bykey(key)`: the canonical name of the key's pitch class and octave, default attributes. */
  function ByKey(key: int): Note {
    Named(SetsAt(key % 12) + IntToString(key / 12 - 1))
  }

  /** The names in the table are distinct, so a name's table position is unique. */
  lemma SetsDistinct()
    ensures forall i, j :: 0 <= i < j < 12 ==> Sets[i] != Sets[j]
  {
  }

  /** Distinct classes have distinct names. */
  lemma SetsAtInjective(a: nat, b: nat)
    requires a < 12 && b < 12 && SetsAt(a) == SetsAt(b)
    ensures a == b
  {
    assert SetsAt(a) == Sets[a] && SetsAt(b) == Sets[b];
    IndexOfSets(a);
    IndexOfSets(b);
  }

  lemma IndexOfSets(i: nat)
    requires i < 12
    ensures IndexOf(Sets, Sets[i]) == Some(i)
  {
    SetsDistinct();
  }

  /** Shape of the table's names: one or two pitch characters, a letter first, '#' or 'b' second. */
  lemma SetsShape(p: string)
    requires p in Sets
    ensures 1 <= |p| <= 2 && IsAsciiLetter(p[0])
    ensures forall i :: 0 <= i < |p| ==> IsPitchChar(p[i])
    ensures |p| == 2 ==> p[1] == '#' || p[1] == 'b'
    ensures forall w | w in Rewrites :: p != w.0
  {
  }

  /**
   * In a pitch name followed by characters other than '#' and 'b', a two-character string
   * ending in '#' or 'b' can only occur as the pitch name itself.
   */
  lemma OnlyLeadingPair(p: string, d: string, x: string)
    requires 1 <= |p| <= 2 && |x| == 2 && (x[1] == '#' || x[1] == 'b')
    requires forall i :: 0 <= i < |d| ==> d[i] != '#' && d[i] != 'b'
    ensures Contains(p + d, x) ==> p == x
  {
    var s := p + d;
    ContainsPair(s, x);
    if Contains(s, x) {
      var i :| 0 <= i < |s| - 1 && s[i] == x[0] && s[i + 1] == x[1];
      assert i == 0 && |p| == 2;
      assert p == [s[0], s[1]];
    }
  }

  /** The digits of `str(o)` contain neither '#' nor 'b' nor any pitch character. */
  lemma OctaveChars(o: int)
    ensures forall i :: 0 <= i < |IntToString(o)| ==> !IsPitchChar(IntToString(o)[i])
  {
  }

  /** A canonical name followed by an octave number is left alone by the rewriting. */
  lemma CanonicalUnchanged(p: string, o: int)
    requires p in Sets
    ensures Enharmonic(p + IntToString(o)) == p + IntToString(o)
  {
    var d := IntToString(o);
    OctaveChars(o);
    SetsShape(p);
    forall w | w in Rewrites ensures !Contains(p + d, w.0) {
      OnlyLeadingPair(p, d, w.0);
    }
  }

  /** The pitch letters of a pitch name followed by `str(o)` are the pitch name. */
  lemma LettersOfSpelled(p: string, o: int)
    requires 1 <= |p| && forall i :: 0 <= i < |p| ==> IsPitchChar(p[i])
    ensures PitchLetters(p + IntToString(o)) == p
  {
    OctaveChars(o);
    PitchLettersConcat(p, IntToString(o));
  }

  /** The octave of a pitch name followed by `str(o)` is `o`. */
  lemma OctaveOfSpelled(p: string, o: int)
    requires 1 <= |p| && forall i :: 0 <= i < |p| ==> IsPitchChar(p[i])
    ensures OctaveOf(p + IntToString(o)) == Ok(o)
  {
    var d := IntToString(o);
    var s := p + d;
    OctaveChars(o);
    LettersOfSpelled(p, o);
    assert s[..|p|] == p && s[|p|..] == d;
    HeadAbsent(d, p);
    assert Replace(s, p, "") == d;
    HeadAbsent(d, "#");
    HeadAbsent(d, "b");
    IntStringRoundTrip(o);
  }

  /** The table name at `i` followed by `str(o)` has key `i + 12 * (o + 1)`. */
  lemma KeyOfSpelled(i: nat, o: int)
    requires i < 12
    ensures NoteIndexOf(Sets[i] + IntToString(o)) == Ok(i)
    ensures KeyOf(Sets[i] + IntToString(o)).Ok? && KeyOf(Sets[i] + IntToString(o)).value == i + 12 * (o + 1)
  {
    var p, s := Sets[i], Sets[i] + IntToString(o);
    SetsShape(p);
    LettersOfSpelled(p, o);
    OctaveOfSpelled(p, o);
    IndexOfSets(i);
  }

  /** The name bykey gives: the table name of `k mod 12`, then `str(k // 12 - 1)`. */
  lemma ByKeyName(k: int)
    ensures ByKey(k).name == Sets[k % 12] + IntToString(k / 12 - 1)
  {
  }

  /** bykey's names are canonical: the constructor's rewriting leaves them unchanged. */
  lemma ByKeySpelling(k: int)
    ensures Name1(ByKey(k)) == ByKey(k).name
  {
    ByKeyName(k);
    CanonicalUnchanged(Sets[k % 12], k / 12 - 1);
  }

  /** bykey's note has pitch class `k mod 12`. */
  lemma ByKeyNoteIndex(k: int)
    ensures NoteIndex(ByKey(k)) == Ok(k % 12)
  {
    ByKeyName(k);
    ByKeySpelling(k);
    KeyOfSpelled(k % 12, k / 12 - 1);
  }

  /** bykey's note is in octave `k // 12 - 1`. */
  lemma ByKeyOctave(k: int)
    ensures Octave(ByKey(k)) == Ok(k / 12 - 1)
  {
    ByKeyName(k);
    ByKeySpelling(k);
    SetsShape(Sets[k % 12]);
    OctaveOfSpelled(Sets[k % 12], k / 12 - 1);
  }

  /** `Note.bykey(k).key() == k` for every int k. */
  lemma KeyRoundTrip(k: int)
    ensures Key(ByKey(k)) == Ok(k)
  {
    var i, o := k % 12, k / 12 - 1;
    var s := Sets[i] + IntToString(o);
    assert KeyOf(s).Ok? && KeyOf(s).value == k by {
      KeyOfSpelled(i, o);
    }
    assert Key(ByKey(k)) == KeyOf(s) by {
      ByKeyName(k);
      ByKeySpelling(k);
    }
    OkIs(Key(ByKey(k)), k);
  }

  /**
   * The bykey facts for every key at once, in a form the solver applies to whatever
   * key expression a proof mentions.
   */
  lemma ByKeyFacts()
    ensures forall k :: Name1(ByKey(k)) == ByKey(k).name
    ensures forall k :: NoteIndex(ByKey(k)).Ok? && NoteIndex(ByKey(k)).value == k % 12
    ensures forall k :: Octave(ByKey(k)).Ok? && Octave(ByKey(k)).value == k / 12 - 1
    ensures forall k :: Key(ByKey(k)).Ok? && Key(ByKey(k)).value == k
  {
    forall k ensures Name1(ByKey(k)) == ByKey(k).name {
      ByKeySpelling(k);
    }
    forall k ensures NoteIndex(ByKey(k)).Ok? && NoteIndex(ByKey(k)).value == k % 12 {
      ByKeyNoteIndex(k);
    }
    forall k ensures Octave(ByKey(k)).Ok? && Octave(ByKey(k)).value == k / 12 - 1 {
      ByKeyOctave(k);
    }
    forall k ensures Key(ByKey(k)).Ok? && Key(ByKey(k)).value == k {
      KeyRoundTrip(k);
    }
  }

  /**
   * bykey applied to equal keys gives equal notes. Trivial, but in this form the solver
   * applies it to key expressions that are equal only by arithmetic.
   */
  lemma ByKeyCongruence()
    ensures forall a: int, b: int {:trigger ByKey(a), ByKey(b)} :: a == b ==> ByKey(a) == ByKey(b)
  {
  }

  /** Two keys with the same canonical name are the same key, so bykey is injective. */
  lemma ByKeyInjective(a: int, b: int)
    ensures ByKey(a).name == ByKey(b).name <==> a == b
  {
    ByKeySpelling(a);
    ByKeySpelling(b);
    KeyRoundTrip(a);
    KeyRoundTrip(b);
    if ByKey(a).name == ByKey(b).name {
      assert ByKey(a) == ByKey(b);
    }
  }

  /** An enharmonic spelling followed by an octave number holds no other rewrite pattern. */
  lemma OnlyItsPattern(w: (string, string), o: int)
    requires w in Rewrites
    ensures forall x | x in Rewrites && x.0 != w.0 :: !Contains(w.0 + IntToString(o), x.0)
  {
    OctaveChars(o);
    forall x | x in Rewrites && x.0 != w.0 ensures !Contains(w.0 + IntToString(o), x.0) {
      OnlyLeadingPair(w.0, IntToString(o), x.0);
    }
  }

  /** Replacing the leading pattern of `p + d`, when `d` cannot start another, gives `q + d`. */
  lemma ReplaceLeading(p: string, q: string, d: string)
    requires |p| == 2 && forall i :: 0 <= i < |d| ==> d[i] != p[0]
    ensures Contains(p + d, p) && Replace(p + d, p, q) == q + d
  {
    var s := p + d;
    assert s[..2] == p && s[2..] == d;
    HeadAbsent(d, p);
  }

  /** Each enharmonic spelling followed by an octave number is rewritten to its canonical spelling. */
  lemma Respelled(w: (string, string), o: int)
    requires w in Rewrites
    ensures Enharmonic(w.0 + IntToString(o)) == w.1 + IntToString(o)
  {
    OnlyItsPattern(w, o);
    OctaveChars(o);
    ReplaceLeading(w.0, w.1, IntToString(o));
  }

  /** An enharmonic spelling and its canonical spelling, followed by the same octave, have the same key. */
  lemma EnharmonicSameKey(w: (string, string), o: int)
    requires w in Rewrites
    ensures Key(Named(w.0 + IntToString(o))) == Key(Named(w.1 + IntToString(o)))
  {
    Respelled(w, o);
    assert w.1 in Sets;
    CanonicalUnchanged(w.1, o);
  }

  /** The worked case: "Db4" and "C#4" are both key 61. */
  lemma DbEqualsCSharp()
    ensures Key(Named("Db4")) == Key(Named("C#4")) == Ok(61)
  {
    assert IntToString(4) == "4";
    assert "Db" + IntToString(4) == "Db4" && "C#" + IntToString(4) == "C#4";
    EnharmonicSameKey(("Db", "C#"), 4);
    ByKeyName(61);
    KeyRoundTrip(61);
    assert ByKey(61) == Named("C#4");
  }

  /** A spelling whose letters are not a table name has no key. */
  lemma UnknownLettersHaveNoKey(n: Note)
    requires PitchLetters(Name1(n)) !in Sets
    ensures Key(n).Err? && Key(n).error.UnknownPitchName?
  {
  }

  /** A table name without octave digits has no key: int() rejects the empty remainder. */
  lemma MissingOctaveHasNoKey(p: string)
    requires p in Sets
    ensures Key(Named(p)) == Err(MalformedOctave(""))
  {
    SetsShape(p);
    forall w | w in Rewrites ensures !Contains(p, w.0) {
      OnlyLeadingPair(p, "", w.0);
      assert p + "" == p;
    }
    assert Name1(Named(p)) == p;
    assert PitchLetters(p) == p;
    assert p[..|p|] == p && p[|p|..] == "";
    assert Replace(p, p, "") == "";
  }
}
