/**
 * The arithmetic of single notes: moving a note by semitones (`add1`, `+`, `-`),
 * scaling its duration (`*`), replacing its duration or dynamic, and the scale
 * degrees named after a note (dominant, subdominant, supertonic, leading tone).
 */
module Semitones {
  import opened Results
  import opened PyText
  import opened Pitch

  /**
   * A right-hand operand of a dynamically typed operator: an int, a float, a Note,
   * a Note.array (by its list of notes) or a value of any other type.
   */
  datatype Operand = IntArg(i: int) | FloatArg(x: real) | NoteArg(n: Note) | ArrayArg(notes: seq<Note>) | OtherArg

  /** `add1(semitone)`: the note `semitone` keys away, by bykey; the argument must be an int. */
  function Add1(n: Note, semitone: Operand): (r: Result<Note>)
    ensures !semitone.IntArg? ==> r.Err? && r.error == NotAnInteger
    ensures semitone.IntArg? ==> (r.Ok? <==> Key(n).Ok?)
    ensures semitone.IntArg? && Key(n).Err? ==> r.Err? && r.error == Key(n).error
  {
    if !semitone.IntArg? then Err(NotAnInteger)
    else if Key(n).Err? then Err(Key(n).error)
    else Ok(Shift(n, semitone.i))
  }

  /** `note + x` (`__add__`), and `x + note` (`__radd__`): both check for an int and call add1. */
  function Add(n: Note, x: Operand): Result<Note> {
    if !x.IntArg? then Err(NotAnInteger) else Add1(n, x)
  }

  /** The note `s` semitones from a note that has a key. */
  function Shift(n: Note, s: int): Note
    requires Key(n).Ok?
  {
    ByKey(Key(n).value + s)
  }

  /** Adding an int to a note with a key gives the bykey note of the sum, whose key is that sum. */
  lemma AddKey(n: Note, s: int)
    requires Key(n).Ok?
    ensures Add(n, IntArg(s)).Ok? && Add(n, IntArg(s)).value == Shift(n, s)
    ensures Key(Shift(n, s)).Ok? && Key(Shift(n, s)).value == Key(n).value + s
    ensures Shift(n, s).duration == 1.0 && Shift(n, s).dynamic == 0.25
  {
    ByKeyFacts();
    ByKeyCongruence();
  }

  /** `note + array` raises in Note.__add__ before Note.array.__radd__ is ever consulted. */
  lemma NotePlusArrayRaises(n: Note, notes: seq<Note>)
    ensures Add(n, ArrayArg(notes)).Err? && Add(n, ArrayArg(notes)).error == NotAnInteger
  {
  }

  /** The outcome of `note - x`: a semitone interval (note minus note) or a lowered note (note minus int). */
  datatype Difference = Interval(semitones: int) | Lowered(note: Note)

  /** `note - other` (`__sub__`). */
  function Sub(n: Note, other: Operand): (r: Result<Difference>)
    ensures other.NoteArg? ==> (r.Ok? <==> Key(n).Ok? && Key(other.n).Ok?)
    ensures other.NoteArg? && r.Ok? ==> r.value.Interval? && r.value.semitones == Key(n).value - Key(other.n).value
    ensures other.NoteArg? && r.Err? ==> r.error == if Key(n).Err? then Key(n).error else Key(other.n).error
    ensures other.IntArg? ==> (r.Ok? <==> Key(n).Ok?)
    ensures !other.NoteArg? && !other.IntArg? ==> r.Err? && r.error == UnsupportedOperand
  {
    match other
    case NoteArg(m) =>
      (match Key(n)
       case Err(e) => Err(e)
       case Ok(k) =>
         match Key(m)
         case Err(e) => Err(e)
         case Ok(km) => Ok(Interval(k - km)))
    case IntArg(i) =>
      (match Add1(n, IntArg(-i))
       case Err(e) => Err(e)
       case Ok(lowered) => Ok(Lowered(lowered)))
    case _ => Err(UnsupportedOperand)
  }

  /** `j - s` lowers `j` to the bykey note of any key equal to `key(j) - s`. */
  lemma SubTo(n: Note, s: int, k: int)
    requires Key(n).Ok? && Key(n).value - s == k
    ensures Sub(n, IntArg(s)).Ok? && Sub(n, IntArg(s)).value.Lowered?
    ensures Sub(n, IntArg(s)).value.note == ByKey(k)
    ensures Key(ByKey(k)).Ok? && Key(ByKey(k)).value == k
    ensures ByKey(k).duration == 1.0 && ByKey(k).dynamic == 0.25
  {
    ByKeyCongruence();
    KeyRoundTrip(k);
  }

  /** `(note + s) - note == s`: the interval undoes the transposition. */
  lemma AddThenMeasure(n: Note, s: int)
    requires Key(n).Ok?
    ensures Add(n, IntArg(s)).Ok? && Sub(Add(n, IntArg(s)).value, NoteArg(n)).Ok?
    ensures Sub(Add(n, IntArg(s)).value, NoteArg(n)).value.Interval?
    ensures Sub(Add(n, IntArg(s)).value, NoteArg(n)).value.semitones == s
  {
    ByKeyFacts();
  }

  /** `(note + s) - s` is the note respelled canonically: the bykey note of its own key. */
  lemma AddThenLower(n: Note, s: int)
    requires Key(n).Ok?
    ensures Add(n, IntArg(s)).Ok? && Sub(Add(n, IntArg(s)).value, IntArg(s)).Ok?
    ensures Sub(Add(n, IntArg(s)).value, IntArg(s)).value.Lowered?
    ensures Sub(Add(n, IntArg(s)).value, IntArg(s)).value.note == ByKey(Key(n).value)
  {
    AddKey(n, s);
    var m := Shift(n, s);
    AddKey(m, -s);
    ByKeyCongruence();
  }

  /** Note minus note is antisymmetric. */
  lemma IntervalAntisymmetric(a: Note, b: Note)
    requires Key(a).Ok? && Key(b).Ok?
    ensures Sub(a, NoteArg(b)).Ok? && Sub(b, NoteArg(a)).Ok?
    ensures Sub(a, NoteArg(b)).value.semitones == -Sub(b, NoteArg(a)).value.semitones
  {
  }

  /** `change_duration(d)`: a new note spelled as this note's rewritten name, with duration `d`. */
  function ChangeDuration(n: Note, d: real): (r: Note)
    ensures r.duration == d && r.dynamic == n.dynamic && r.timbre == n.timbre
    ensures r.name == Name1(n)
    ensures Name1(r) == Name1(n)
  {
    Note(Name1(n), d, n.dynamic, n.timbre)
  }

  /** `change_dynamic(v)`: a new note spelled as this note's rewritten name, with dynamic `v`. */
  function ChangeDynamic(n: Note, v: real): (r: Note)
    ensures r.dynamic == v && r.duration == n.duration && r.timbre == n.timbre
    ensures r.name == Name1(n)
    ensures Name1(r) == Name1(n)
  {
    Note(Name1(n), n.duration, v, n.timbre)
  }

  /** Changing the duration or the dynamic keeps the key. */
  lemma ChangesKeepKey(n: Note, x: real)
    ensures Key(ChangeDuration(n, x)) == Key(n) && Key(ChangeDynamic(n, x)) == Key(n)
  {
  }

  /**
   * `factor * note` (`__rmul__`): the duration scaled by a positive int or float; any
   * other factor, zero or a negative number raises.
   */
  function RMul(n: Note, factor: Operand): (r: Result<Note>)
    ensures r.Ok? <==> (factor.IntArg? && factor.i > 0) || (factor.FloatArg? && factor.x > 0.0)
    ensures r.Ok? ==> r.value.duration == n.duration * Magnitude(factor)
    ensures r.Ok? ==> Name1(r.value) == Name1(n) && r.value.dynamic == n.dynamic
  {
    match factor
    case IntArg(i) => if i <= 0 then Err(NotAPositiveNumber) else Ok(ChangeDuration(n, n.duration * Magnitude(factor)))
    case FloatArg(x) => if x <= 0.0 then Err(NotAPositiveNumber) else Ok(ChangeDuration(n, n.duration * Magnitude(factor)))
    case _ => Err(NotAPositiveNumber)
  }

  /** The numeric value of an int or float operand (zero for any other value). */
  function Magnitude(factor: Operand): real {
    match factor
    case IntArg(i) => i as real
    case FloatArg(x) => x
    case _ => 0.0
  }

  /**
   * `note * factor` (`__mul__`) as written: its guard `type != int or type != float` holds
   * for every value, so it raises whatever the factor.
   */
  function MulAsWritten(n: Note, factor: Operand): Result<Note> {
    var notInt := !factor.IntArg?;
    var notFloat := !factor.FloatArg?;
    var nonPositive := match factor
      case IntArg(i) => i <= 0
      case FloatArg(x) => x <= 0.0
      case _ => false;
    if (notInt || notFloat) || nonPositive then Err(NotAPositiveNumber)
    else Ok(ChangeDuration(n, n.duration * Magnitude(factor)))
  }

  /** The multiplication as written rejects even the positive int 2. */
  lemma MulAsWrittenAlwaysRaises(n: Note, factor: Operand)
    ensures MulAsWritten(n, factor).Err? && MulAsWritten(n, factor).error == NotAPositiveNumber
    ensures RMul(n, IntArg(2)).Ok? && MulAsWritten(n, IntArg(2)).Err?
  {
  }

  /** `note * factor` with the guard's `or` read as the `and` of `__rmul__`: the same as `factor * note`. */
  function Mul(n: Note, factor: Operand): (r: Result<Note>)
    ensures r.Ok? <==> RMul(n, factor).Ok?
    ensures r.Ok? ==> r.value == RMul(n, factor).value
  {
    var notInt := !factor.IntArg?;
    var notFloat := !factor.FloatArg?;
    var nonPositive := match factor
      case IntArg(i) => i <= 0
      case FloatArg(x) => x <= 0.0
      case _ => false;
    if (notInt && notFloat) || nonPositive then Err(NotAPositiveNumber)
    else Ok(ChangeDuration(n, n.duration * Magnitude(factor)))
  }

  /** `dominant(which)`: the fifth, `-5 + 12 * which` semitones away. */
  function Dominant(n: Note, which: Operand): Result<Note> {
    if !which.IntArg? then Err(NotAnInteger) else Add1(n, IntArg(-5 + which.i * 12))
  }

  /** `subdominant(which)`: the fourth, `-7 + 12 * which` semitones away. */
  function Subdominant(n: Note, which: Operand): Result<Note> {
    if !which.IntArg? then Err(NotAnInteger) else Add1(n, IntArg(-7 + which.i * 12))
  }

  /** `supertonic(which)`: the second, `2 + 12 * which` semitones away. */
  function Supertonic(n: Note, which: Operand): Result<Note> {
    if !which.IntArg? then Err(NotAnInteger) else Add1(n, IntArg(2 + which.i * 12))
  }

  /** `leading_tone()`: the semitone below. */
  function LeadingTone(n: Note): Result<Note> {
    Add1(n, IntArg(-1))
  }

  /**
   * The named degrees sit at fixed distances from the note, whatever the octave `which`:
   * the dominant a fourth down (a fifth up when `which` is 1), the subdominant a fifth down,
   * the supertonic a whole tone up, each shifted by `which` octaves, and the leading tone a
   * semitone down.
   */
  lemma DegreeKeys(n: Note, which: int)
    requires Key(n).Ok?
    ensures Dominant(n, IntArg(which)).Ok? && Key(Dominant(n, IntArg(which)).value).Ok?
    ensures Key(Dominant(n, IntArg(which)).value).value == Key(n).value - 5 + 12 * which
    ensures Subdominant(n, IntArg(which)).Ok? && Key(Subdominant(n, IntArg(which)).value).Ok?
    ensures Key(Subdominant(n, IntArg(which)).value).value == Key(n).value - 7 + 12 * which
    ensures Supertonic(n, IntArg(which)).Ok? && Key(Supertonic(n, IntArg(which)).value).Ok?
    ensures Key(Supertonic(n, IntArg(which)).value).value == Key(n).value + 2 + 12 * which
    ensures LeadingTone(n).Ok? && Key(LeadingTone(n).value).Ok?
    ensures Key(LeadingTone(n).value).value == Key(n).value - 1
  {
    ByKeyFacts();
  }

  /** The dominant of the subdominant is the note an octave down, respelled canonically. */
  lemma DominantOfSubdominant(n: Note)
    requires Key(n).Ok?
    ensures Subdominant(n, IntArg(0)).Ok?
    ensures Dominant(Subdominant(n, IntArg(0)).value, IntArg(0)).Ok?
    ensures Dominant(Subdominant(n, IntArg(0)).value, IntArg(0)).value == ByKey(Key(n).value - 12)
  {
    ByKeyFacts();
    ByKeyCongruence();
  }
}
