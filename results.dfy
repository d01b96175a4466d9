/** Optional values, results and the exceptions bach.py raises, as values. */
module Results {

  datatype Option<+T> = None | Some(value: T)

  /** The outcome of an operation that may raise. */
  datatype Result<+T> = Ok(value: T) | Err(error: Error)

  /** The exceptions the modelled code raises, one constructor per cause. */
  datatype Error =
    | UnknownPitchName(pitch: string)  // list.index fails in note_index()
    | MalformedOctave(text: string)    // int() fails in octave()
    | NotAnInteger                     // a semitone, 'which' or similar argument is not an int
    | NotAPositiveNumber               // a duration factor that is not a positive number
    | UnsupportedOperand               // Note minus something that is neither a Note nor an int
    | RootNotAString                   // `"Db" in root` on an int root (TypeError)
    | TooFewIntervals                  // a chord's interval tuple shorter than 3
    | UnknownChordName(chord: string)  // Note.chords[...] with a name the table lacks (KeyError)
    | NoteNotInChord                   // the root-resolution search found no degree
    | IndexOutOfRange                  // a list index outside -len .. len-1 (IndexError)
    | InvalidSortMode                  // sort() with a mode other than the three attributes
    | UndefinedSortKey                 // tone()'s sort key names the never-assigned `x` (NameError)

  /**
   * A successful result is the Ok of its value. Stated as a lemma because deriving the
   * equality of two results directly makes the solver compare the error payloads too.
   */
  lemma OkIs<T>(r: Result<T>, v: T)
    requires r.Ok? && r.value == v
    ensures r == Ok(v)
  {
  }
}
