# bach: notes, keys, chords and note arrays

This project models the integer core of `bach.py`, a small music library built around a
`Note` class. It covers four parts.

- **Pitch naming.** A note is spelled as a pitch name plus an octave number (`"A4"`). The
  constructor respells five enharmonic names: Db, D#, Gb, G# and A# become C#, Eb, F#, Ab and Bb.
  `set()`, `octave()`, `note_index()` and `key()` decode the spelling into a MIDI-style key
  (A4 = 69). `Note.bykey(k)` builds the canonical note of a key from the circular twelve-name
  table `Note.sets`.
- **Semitone arithmetic.** `add1`, `note + int`, `int + note`, `note - int`, `note - note`,
  `factor * note`, `change_duration`, `change_dynamic` and the named degrees (dominant,
  subdominant, supertonic, leading tone).
- **The chord engine.** `chord(degree, root, intervals)` steps through an interval tuple
  upwards or downwards, with octave-wrapped inversions. It can first resolve a named root
  with a 12-step search. The fixed-interval wrappers (`Maj`, `d7`, `m`, `m7`, `maug7`, `dim`,
  `dim7`) bind one tuple each; `M7` and `m7dim` look up names the chord table lacks and always
  raise KeyError.
- **`Note.array`.** A mutable container with:
  - indexing and in-place `__setitem__`;
  - concatenation, append and prepend (`+`);
  - transposition (`+ int`, `- int`);
  - repetition and reversal (`*`, unary `-`);
  - a stable sort by duration, key or dynamic;
  - `root()`, which lists every chord of the table whose transposition holds every note;
  - `tone()` in its exact mode.

Python values that may raise become `Result` values whose `Error` names the exception's
cause (`results.dfy`). Python's dynamically typed operands become the `Operand` datatype.
Floats (duration, dynamic, timbre) are modelled as exact `real`s. The Python built-ins the
code relies on are modelled in `pytext.dfy`: `in` on strings, `str.replace`, `str.isalpha`
(ASCII letters), `str(int)`, `int(str)` (ASCII digits and whitespace) and `list.index`.

Layout:
- `results.dfy` (`Results`)
- `pytext.dfy` (`PyText`)
- `pitch.dfy` (`Pitch`): names and keys
- `semitones.dfy` (`Semitones`): single-note arithmetic
- `harmony.dfy` (`Harmony`): the interval tables and chord()
- `notearrays.dfy` (`NoteArrays`): the `Note.array` class, its sort, and the root()/tone() detectors

The code is followed where it disagrees with its comments or its evident intent:
- `chord()` with the default integer root raises a TypeError.
- `note * x` always raises.
- `tone()` raises NameError whenever something matches.

Each of them is modelled as written, and next to it as evidently intended, under "Findings".
The corrected chord() takes the root as an optional pitch name: `None` means the note is
its own root. Only the corrected chord() is used by the rest of the model.

## Model

| member | source | states |
|---|---|---|
| Pitch.SetsAtPeriodic | bach.py:13-20 | the circular list gives the same name for any two int indices twelve apart, negative indices included |
| Pitch.SineTimbre | bach.py:53 | the default timbre `[1] + 50*[0]` holds one entry per harmonic (51 of them), a 1 for the fundamental and zeros above it |
| Pitch.Enharmonic | bach.py:59-69 | after the five respellings none of Db, D#, Gb, G#, A# is left in `name1`; a name holding none of them is kept as is |
| Pitch.RewriteStepKeepsOut | bach.py:60-69 | one respelling removes its own pattern when it fires and never creates any of the five patterns |
| Pitch.Respelled | bach.py:59-69 | each enharmonic spelling followed by an octave number becomes its canonical spelling with the same octave |
| Pitch.CanonicalUnchanged | bach.py:59-69 | a table name followed by an octave number is left unchanged by the respelling |
| Pitch.PitchLetters | bach.py:74-77 | the kept characters are letters, '#' or 'b'; a spelling made only of such characters is kept whole, one with none gives "" |
| Pitch.PitchLettersConcat | bach.py:74-77 | the letter filter distributes over concatenation |
| Pitch.SetOf | bach.py:72-78 | the accumulating loop of set() returns exactly the pitch letters of the respelled name |
| Pitch.OctaveOfSpelled | bach.py:80-86 | octave() of a pitch name followed by `str(o)` is o |
| Pitch.MissingOctaveHasNoKey | bach.py:80-86 | a table name with no octave digits raises in int() with the empty remainder |
| Pitch.Named | bach.py:53 | `Note(name)` with the default duration 1, dynamic 0.25 and sine timbre; no ensures of its own, Pitch.SineTimbre states the timbre |
| Pitch.ByKey | bach.py:39-45 | `Note.bykey(k)`: no ensures of its own; Pitch.ByKeyName, ByKeySpelling, ByKeyNoteIndex, ByKeyOctave, KeyRoundTrip and ByKeyInjective state what it builds |
| Pitch.OctaveOf | bach.py:80-86 | octave(): no ensures of its own; Pitch.OctaveOfSpelled, MissingOctaveHasNoKey and KeyOf state its results |
| Pitch.NoteIndex | bach.py:88-90 | note_index() of a note, the table position of its respelled letters; Pitch.NoteIndexOf states it |
| Pitch.Key | bach.py:92-95 | key() of a note, the key of its respelled name; Pitch.KeyOf, KeyDecodes and KeyRoundTrip state it |
| Pitch.NoteIndexOf | bach.py:88-90 | note_index() succeeds exactly when the pitch letters are a table name, and then returns that name's position |
| Pitch.UnknownLettersHaveNoKey | bach.py:88-90 | a spelling whose letters are not a table name has no key (ValueError of list.index) |
| Pitch.KeyOf | bach.py:92-95 | key() succeeds exactly when the letters are in the table and the octave parses; it fails with note_index()'s error first, then octave()'s |
| Pitch.KeyDecodes | bach.py:92-95 | a key decodes back: key mod 12 names the pitch letters and key // 12 - 1 is the octave |
| Pitch.KeyOfSpelled | bach.py:88-95 | table name i followed by `str(o)` has note_index i and key i + 12 * (o + 1) |
| Pitch.ByKeyName | bach.py:39-45 | `Note.bykey(k)` is named `Note.sets[k % 12] + str(k // 12 - 1)` |
| Pitch.ByKeySpelling | bach.py:39-69 | bykey's names are canonical: the constructor's respelling leaves them unchanged |
| Pitch.ByKeyNoteIndex | bach.py:39-90 | `Note.bykey(k).note_index()` is k mod 12 |
| Pitch.ByKeyOctave | bach.py:39-86 | `Note.bykey(k).octave()` is k // 12 - 1 |
| Pitch.KeyRoundTrip | bach.py:39-95 | `Note.bykey(k).key() == k` for every int k |
| Pitch.ByKeyFacts | bach.py:39-95 | the four bykey facts above, for every key at once |
| Pitch.SetsAtInjective | bach.py:20 | distinct pitch classes have distinct table names |
| Pitch.ByKeyInjective | bach.py:39-45 | two keys give the same bykey name exactly when they are equal |
| Pitch.EnharmonicSameKey | bach.py:59-95 | an enharmonic spelling and its canonical spelling, in the same octave, have the same key |
| Pitch.DbEqualsCSharp | bach.py:59-95 | `Note("Db4").key() == Note("C#4").key() == 61` |
| PyText.IntStringRoundTrip | bach.py:86 | `int(str(i)) == i` for every int, which octave() relies on for bykey's names |
| PyText.IndexOf | bach.py:90 | `list.index` returns the first position holding the item, and fails exactly when it is absent |
| Semitones.Add1 | bach.py:101-104 | a non-int semitone raises; otherwise add1 succeeds exactly when the note has a key, and fails with the key's error |
| Semitones.Add | bach.py:106-115 | `note + x` and `x + note`: a non-int raises, otherwise add1; Semitones.AddKey and NotePlusArrayRaises state its results |
| Semitones.AddKey | bach.py:101-115 | `n + s` and `s + n` is the bykey note of key(n) + s: its key is key(n) + s, with default duration 1 and dynamic 0.25 |
| Semitones.NotePlusArrayRaises | bach.py:106-110 | `note + array` raises in Note.__add__, since the array is not an int |
| Semitones.Sub | bach.py:121-129 | note minus note succeeds exactly when both have keys and is their key difference; note minus int succeeds exactly when the note has a key; anything else raises |
| Semitones.SubTo | bach.py:121-129 | `n - s` is the bykey note of key(n) - s, whose key is key(n) - s, with default duration and dynamic |
| Semitones.AddThenMeasure | bach.py:106-129 | `(n + s) - n == s` |
| Semitones.AddThenLower | bach.py:106-129 | `(n + s) - s` is n respelled canonically, the bykey note of its own key |
| Semitones.IntervalAntisymmetric | bach.py:121-126 | `a - b == -(b - a)` for notes with keys |
| Semitones.ChangeDuration | bach.py:117-119 | the new note is named by the old note's name1 and has the new duration, the old dynamic and the old timbre |
| Semitones.ChangeDynamic | bach.py:144-146 | the new note is named by the old note's name1 and has the new dynamic, the old duration and the old timbre |
| Semitones.ChangesKeepKey | bach.py:117-146 | changing the duration or the dynamic keeps the key |
| Semitones.RMul | bach.py:138-142 | `factor * note` succeeds exactly for a positive int or float, scales the duration by it and keeps the spelling and the dynamic |
| Semitones.MulAsWritten | bach.py:131-136 | `note * factor` with the guard exactly as written; Semitones.MulAsWrittenAlwaysRaises states that it always raises |
| Semitones.MulAsWrittenAlwaysRaises | bach.py:131-136 | as written, `note * factor` raises for every factor, the positive int 2 included |
| Semitones.Mul | bach.py:131-136 | with the guard as evidently intended, `note * factor` equals `factor * note` |
| Semitones.Dominant | bach.py:148-151 | dominant(which): a non-int `which` raises, otherwise add1(-5 + 12 * which); Semitones.DegreeKeys and DominantOfSubdominant state its key |
| Semitones.Subdominant | bach.py:153-156 | subdominant(which): a non-int `which` raises, otherwise add1(-7 + 12 * which); Semitones.DegreeKeys states its key |
| Semitones.Supertonic | bach.py:158-161 | supertonic(which): a non-int `which` raises, otherwise add1(2 + 12 * which); Semitones.DegreeKeys states its key |
| Semitones.LeadingTone | bach.py:163-164 | leading_tone() is add1(-1); Semitones.DegreeKeys states its key |
| Semitones.DegreeKeys | bach.py:148-164 | dominant, subdominant, supertonic and leading tone have key(n) - 5, - 7 and + 2 (each plus 12 per `which`) and key(n) - 1 |
| Semitones.DominantOfSubdominant | bach.py:148-156 | the dominant of the subdominant is the note one octave down, respelled canonically |
| Harmony.NamesAreKeys | bach.py:22-35 | the listed scale and chord names are exactly the keys of the two tables, each once |
| Harmony.ChordNamesListed | bach.py:25-35 | every listed chord name has a non-empty interval tuple |
| Harmony.ScaleNamesListed | bach.py:22-24 | every listed scale name has a non-empty interval tuple |
| Harmony.MajorIsFirst | bach.py:22 | the first scale is the major scale (0, 2, 4, 5, 7, 9, 11, 12) |
| Harmony.ChordsShape | bach.py:25-35 | every chord has at least three intervals, starts at 0 and stays within the octave |
| Harmony.RewriteRoot | bach.py:177-186 | after chord()'s respelling of the root, none of the five enharmonic patterns is left |
| Harmony.RewriteRootCanonical | bach.py:177-186 | a root already spelled canonically is left alone |
| Harmony.Voiced | bach.py:205-221 | a non-zero degree has a tone exactly when the note has a key, and fails with the key's error |
| Harmony.UpKeyFirstBlock | bach.py:209 | the first L degrees upwards are the intervals above the note |
| Harmony.UpKeyOctave | bach.py:211-214 | L degrees further up is the same tone one octave higher |
| Harmony.DownKeyFirstBlock | bach.py:216 | degrees -1 .. -L are the intervals, last first, one octave below the note |
| Harmony.DownKeyOctave | bach.py:218-221 | L + 1 degrees further down is the same tone one octave lower |
| Harmony.StackKeyAt | bach.py:211-220 | position i * L + r of the built list holds entry r of the first block moved i octaves |
| Harmony.Stack | bach.py:211-220 | the nested append loops keep the first block and put at every later position the bykey note of its block entry, moved by its copy's octaves |
| Harmony.AppendCopy | bach.py:212-220 | one pass of the inner loop appends one moved copy of the first block |
| Harmony.Moved | bach.py:213-220 | `j + i*12`, or `j - i*12`, is the bykey note i octaves from j's key |
| Harmony.UpBlock | bach.py:209 | `[self + i for i in intervals]` fails exactly when the note has no key; otherwise entry t is the bykey note of key + intervals[t] |
| Harmony.DownBlock | bach.py:216 | `[self] + [self + (i - 12) for i in reversed(intervals)]`: the note, then the reversed intervals an octave down |
| Harmony.UpKeyStacked | bach.py:208-214 | tone d upwards is position d of the list the loops build |
| Harmony.DownKeyStacked | bach.py:215-221 | tone -m downwards is position m of the list the loops build |
| Harmony.UpChord | bach.py:208-214 | the ascending branch returns the closed-form tone: interval d mod L above the note, plus 12 * (d div L) |
| Harmony.DownChord | bach.py:215-221 | the descending branch returns the closed-form tone of the descending block, 12 lower per repetition |
| Harmony.VoicedFirstBlock | bach.py:208-214 | for 0 < d < L the tone's key is key(n) + intervals[d] |
| Harmony.VoicedFirstBlockDown | bach.py:215-221 | chord(-m) for 1 <= m <= L has key key(n) + intervals[L - m] - 12; chord(-1) is the last interval an octave down |
| Harmony.VoicedOctaveUp | bach.py:208-214 | for every positive degree d, degrees d and d + L differ by one octave |
| Harmony.VoicedScaleOctave | bach.py:205-214 | on an 8-entry scale from 0 to 12, degrees 7 and 8 both have the key key(n) + 12 |
| Harmony.VoicedOctaveDown | bach.py:215-221 | degrees -m and -(m + L + 1) differ by one octave |
| Harmony.Distance | bach.py:223 | `(self + 120) - Note(root + "0")` is key(n) + 120 - key(root0), or the first missing key's error |
| Harmony.RootNote | bach.py:223-224 | the root note is the bykey note of key(n) - ((key(n) + 120 - key(root0)) mod 12) |
| Harmony.RootKeyBelow | bach.py:223-224 | the root note lies 0 .. 11 semitones at or below the note, on the root's pitch class |
| Harmony.FirstDegree | bach.py:226-230 | the search returns the first degree in i .. 11 that matches, or none when no degree there matches |
| Harmony.FirstDegreeUnique | bach.py:226-230 | any degree characterised as the first match (or no match) is what the search returns |
| Harmony.FirstMatchUnique | bach.py:226-230 | the same for the search over the root's tones from degree 0 |
| Harmony.FindInChord | bach.py:225-232 | the break-on-first-match loop finds the first degree whose tone on the root is spelled like the note, and reports whether there is one |
| Harmony.ToneFromRootFound | bach.py:231-234 | when the note is tone i of the root's chord, the result is the root's tone degree + i |
| Harmony.ChordSpecNoRoot | bach.py:205-221 | with no root, chord() is the closed-form tone |
| Harmony.RootedSpecError | bach.py:222-224 | with a named root, a note or root without a key makes chord() fail with that key's error |
| Harmony.RootedSpecTone | bach.py:222-234 | with both keys, chord() counts from the root note at or below the note |
| Harmony.RootedChord | bach.py:222-234 | the named-root branch: root note, search, then tone degree + i of the root's chord, or the NoteNotInChord error |
| Harmony.ChordSpec | bach.py:176-234 | the closed form of the intended chord(); Harmony.ChordSpecNoRoot, RootedSpecError, RootedSpecTone and ToneFromRootFound state its cases, and Harmony.Chord is proved equal to it |
| Harmony.ChordAsWritten | bach.py:176-234 | chord() as written, with Python's int default root; Harmony.ChordAsWrittenOnlyDegreeZero and ChordAsWrittenDefaultRootFails state what it returns |
| Harmony.Chord | bach.py:176-234 | chord() as evidently intended: a non-int degree and fewer than three intervals raise, degree 0 is the note, otherwise the tone counted from the note or from the named root |
| Harmony.NamedChord | bach.py:236-261 | a wrapper is chord() with the table's tuple, or a KeyError for a name the table lacks |
| Harmony.Maj | bach.py:236-237 | chord() with the intervals (0, 4, 7) |
| Harmony.D7 | bach.py:239-240 | chord() with the intervals (0, 4, 7, 10) |
| Harmony.Minor | bach.py:245-246 | chord() with the intervals (0, 3, 7) |
| Harmony.Minor7 | bach.py:248-249 | chord() with the intervals (0, 3, 7, 10) |
| Harmony.MinorAug7 | bach.py:254-255 | chord() with the intervals (0, 3, 7, 11) |
| Harmony.Dim | bach.py:257-258 | chord() with the intervals (0, 3, 6) |
| Harmony.Dim7 | bach.py:260-261 | chord() with the intervals (0, 3, 6, 10) |
| Harmony.M7 | bach.py:242-243 | always raises KeyError: the table has no "M7" |
| Harmony.Minor7Dim | bach.py:251-252 | always raises KeyError: the table has no "m7dim" |
| Harmony.ChordAsWrittenOnlyDegreeZero | bach.py:176-234 | as written, chord() succeeds only for degree 0 with a string root, returning the note itself |
| Harmony.ChordAsWrittenDefaultRootFails | bach.py:177 | as written, the default root 0 makes every non-zero degree raise TypeError, while the intended chord() has a tone |
| NoteArrays.InsertSorted | bach.py:415 | inserting an index larger than all the others keeps the index list in stable sorted order |
| NoteArrays.InsertPermutes | bach.py:415 | insertion adds the inserted index and keeps every other |
| NoteArrays.SortIndicesSorted | bach.py:415 | `sorted(range(n), key=..., reverse=...)` lists each index once, in stable order (ties in original order, descending when reverse) |
| NoteArrays.SortedIsStable | bach.py:415 | in the sorted order no index goes strictly before one listed ahead of it, and equal attributes keep their original order |
| NoteArrays.PickAt | bach.py:416 | `[self[i] for i in sorted_index]` at position p is the note at index sorted_index[p] |
| NoteArrays.PickSortedPermutes | bach.py:416 | picking the notes in sorted order rearranges them and loses none |
| NoteArrays.PickInOrder | bach.py:412-424 | the picked notes are in order of the chosen attribute |
| NoteArrays.MapResult | bach.py:355 | a comprehension whose calls may raise succeeds exactly when every call does, and then holds every result in order |
| NoteArrays.MapResultFirstError | bach.py:355 | a comprehension fails with the error of its first failing element |
| NoteArrays.MapResultError | bach.py:355 | a failed comprehension has a first failing element, whose error it carries |
| NoteArrays.Keys | bach.py:347-348 | the array's keys exist exactly when every note has one, and list them in order |
| NoteArrays.KeysFirstError | bach.py:347-348 | the key list fails with the error of the first note without a key |
| NoteArrays.Transposed | bach.py:353-355 | `[i.add1(s) for i in self]` holds every note's add1 in order |
| NoteArrays.TransposedFails | bach.py:353-355 | transposing fails exactly when the array is non-empty and the semitone is not an int or some note has no key, with the int check's error first |
| NoteArrays.TransposedKeyAt | bach.py:353-355 | one transposed note has the original note's key moved by s |
| NoteArrays.TransposedKeys | bach.py:353-355 | transposing moves every key by s |
| NoteArrays.RepeatLength | bach.py:394-398 | k copies hold k times as many notes |
| NoteArrays.RepeatPrepend | bach.py:399-403 | one more copy in front is one more copy |
| NoteArrays.RepeatAdds | bach.py:394-403 | a copies followed by b copies are a + b copies |
| NoteArrays.ReversedAt | bach.py:400 | position i of the reversal is position size - 1 - i of the list |
| NoteArrays.ReversedTwice | bach.py:409-410 | reversing twice gives the list back |
| NoteArrays.ReversedPermutes | bach.py:409-410 | reversal keeps every note |
| NoteArrays.NoteBelongs | bach.py:480 | `[(i - j).note_index() for j in intervals]` for one note; NoteArrays.NoteBelongsKeys, BelongsOfKey and BelongsWithoutKey state it |
| NoteArrays.BelongsAt | bach.py:480 | entry j of a key's belongs list is (key - intervals[j]) mod 12 |
| NoteArrays.LoweredIndex | bach.py:480 | for a note with key k, `(i - j)` has a key and its note_index() is (k - j) mod 12 |
| NoteArrays.BelongsOfKey | bach.py:480 | a note with a key has as belongs list the classes (key - j) mod 12, in the intervals' order |
| NoteArrays.BelongsWithoutKey | bach.py:480 | for a note without a key, the belongs list fails with the key's error |
| NoteArrays.NoteBelongsKeys | bach.py:480 | a note's belongs list exists exactly when the note has a key, and otherwise fails with the key's error |
| NoteArrays.InBelongs | bach.py:480-482 | class k is in a key's belongs list exactly when some interval above k lands on the key's class |
| NoteArrays.FitsExtend | bach.py:479-483 | a class fits one more note exactly when it fit the others and belongs to that note |
| NoteArrays.CentresSpec | bach.py:484-485 | the listed centres are exactly the fitting classes, in increasing order |
| NoteArrays.CentresOfNothing | bach.py:478 | with no notes every class 0 .. 11 is a centre |
| NoteArrays.CentresShrink | bach.py:479-483 | more notes only remove centres |
| NoteArrays.OnesAreCentres | bach.py:485 | the indexes holding 1 in a mask of the fitting classes are exactly the centres |
| NoteArrays.NoOnes | bach.py:484-485 | a mask without a 1 lists no index |
| NoteArrays.ClearOutside | bach.py:481-483 | the inner loop zeroes every class outside one note's belongs list and keeps the others |
| NoteArrays.Mask | bach.py:478-483 | tone_values after the note loop is 1 exactly at the classes that fit every key, or the error of the first note without a key |
| NoteArrays.RenderAppend | bach.py:486-489 | collecting the next chord's centres appends their reported forms |
| NoteArrays.FoundUnderMembers | bach.py:484-489 | one chord's found centres are exactly its fitting classes |
| NoteArrays.CollectStep | bach.py:477-489 | one pass over a chord extends the result for the first i chords to the first i + 1 |
| NoteArrays.Collect | bach.py:477-489 | the loop over the table returns the reported forms of all fitting centres, chord by chord in table order, or the first missing key's error |
| NoteArrays.ListingMembers | bach.py:477-489 | a centre is listed under a chord exactly when that chord fits it |
| NoteArrays.FitsMeans | bach.py:480-483 | a class fits exactly when every note's class is the class plus one of the intervals, mod 12 |
| NoteArrays.FitsShrink | bach.py:479-483 | a class that fits more notes fits fewer |
| NoteArrays.ListingNonEmpty | bach.py:477-489 | the listing is non-empty exactly when some centre fits some entry |
| NoteArrays.ListingHasPair | bach.py:486-487 | as pairs, `(Note.sets[k], name)` is listed exactly when k fits under name |
| NoteArrays.ListingOfNothing | bach.py:477-489 | with no notes, every centre of every entry is listed |
| NoteArrays.FoundShrink | bach.py:477-489 | more notes only remove found centres |
| NoteArrays.RenderSubset | bach.py:486-489 | rendering keeps inclusion |
| NoteArrays.ListingShrink | bach.py:477-489 | more notes only remove reported entries |
| NoteArrays.Roots | bach.py:473-490 | root()'s listing for given keys; NoteArrays.RootReports, RootsOfNothing and RootsShrink state it, and NoteArray.Root returns it |
| NoteArrays.RootReports | bach.py:473-490 | root() with aslist reports `(Note.sets[k], c)` exactly when every note's class is in {(k + j) mod 12 : j in chords[c]} |
| NoteArrays.RootsOfNothing | bach.py:473-490 | an empty array matches every centre of every chord |
| NoteArrays.RootsShrink | bach.py:473-490 | adding notes to an array only removes reported chords |
| NoteArrays.Tones | bach.py:441-457 | the evidently intended exact-mode tone() listing over the scale table; NoteArrays.TonesExactlyWhenFits states when it is non-empty |
| NoteArrays.TonesExactlyWhenFits | bach.py:441-457 | the evidently intended tone() result is non-empty exactly when some scale fits every note |
| NoteArrays.ToneOfCMajorTriad | bach.py:441-469 | the keys 60, 64, 67 of C4 E4 G4 fit C major, so the intended result is non-empty, and by NoteArray.Tone tone() as written raises for them |
| NoteArrays.NoteArray.constructor | bach.py:329-331 | the array holds the given list, and its size is the list's length |
| NoteArrays.NoteArray.GetItem | bach.py:333-334 | indexing succeeds exactly for -len <= i < len, a negative index counting from the end, and raises IndexError otherwise |
| NoteArrays.NoteArray.SetItem | bach.py:336-337 | writes the one addressed entry in place and keeps the length and every other entry; an index out of range raises and changes nothing |
| NoteArrays.NoteArray.Len | bach.py:339-340 | the length is the list's length, which is the size fixed at construction |
| NoteArrays.NoteArray.Backwards | bach.py:400 | `[self[-i] for i in range(1, size + 1)]` is the list reversed |
| NoteArrays.NoteArray.Transpose | bach.py:353-355 | a plain list of the same length whose keys are the originals moved by the semitone; or the int check's error, or the first missing key's |
| NoteArrays.NoteArray.ChangeDurations | bach.py:357-358 | a plain list of the notes with the new duration, spelling and dynamic kept |
| NoteArrays.NoteArray.ChangeDynamics | bach.py:360-361 | a plain list of the notes with the new dynamic, spelling and duration kept |
| NoteArrays.NoteArray.Plus | bach.py:367-376 | `self + int` transposes (a plain list), `self + array` concatenates, `self + note` appends, anything else gives None |
| NoteArrays.NoteArray.RPlus | bach.py:378-384 | `int + self` transposes, an array is appended after self's notes, a note is prepended, anything else gives None |
| NoteArrays.NoteArray.Minus | bach.py:386-389 | `self - int` is a plain list whose keys are moved down by the int; anything else gives None |
| NoteArrays.NoteArray.Times | bach.py:391-407 | `self * k` (and `k * self`) is k copies for k > 0 and -k copies of the reversed list for k < 0; zero and other operands give None |
| NoteArrays.NoteArray.Negate | bach.py:409-410 | `-self` is a new array of the notes reversed |
| NoteArrays.NoteArray.Attributes | bach.py:412-426 | the attribute list exists exactly for the three modes (and, for pitch, when every note has a key), one attribute per note |
| NoteArrays.NoteArray.Sort | bach.py:412-426 | a new array that is a permutation of the notes, ordered by the attribute (descending when reverse); an unknown mode raises, and so does pitch mode when a note has no key |
| NoteArrays.NoteArray.Root | bach.py:473-490 | root() returns the reported fitting centres of every chord in table order, or the first missing key's error |
| NoteArrays.NoteArray.Tone | bach.py:428-471 | tone() in exact mode returns [] when no scale fits, raises NameError when one does, and a missing key raises first |

## Left out

- `play` (bach.py:315-324): sine synthesis in floating point and sound output are I/O.
- `frequency`, `byfreq`, `harmonic`, `subharmonic` (bach.py:47-51, 97-99, 166-174): they rest on floating-point logarithms, powers and rounding.
- `consonance` (bach.py:492-517): its keys come from floating-point logarithms.
- `display` and the array's `display`: printing only.
- The array's `set()` and `frequency()` (bach.py:344-345, 350-351): a comprehension over `set()` and a float computation; the array's `key()` is modelled as Keys.
- `add` (bach.py:263-310): it assigns to the local name `str` (bach.py:280), so `str(...)` at bach.py:285 raises UnboundLocalError for every scale it accepts. It is not modelled.
- The shared mutable default `timbre` (bach.py:53): timbre is an immutable sequence value, so sharing between notes is not modelled.
- List aliasing: `Note.array(note_list)` keeps a reference to the caller's list, but the model copies a value into the array.
- The dead checks in chord(): `Note("root")` (bach.py:190) never fails, and bach.py:199 builds an Exception without raising it. Both are modelled as doing nothing. The intervals are ints by type, and any tuple of length at least 3 is accepted.
- `tone()`'s probabilistic mode (bach.py:447-450, 458-464): float powers of the durations.
- `tone()`'s type checks of `aslist` and `probabilistic` (bach.py:437-440): the parameters are booleans by type.
- `tone()`'s final flatten and sort (bach.py:465-469), whose sort raises NameError in exact mode. The model records only whether the flattened list is empty.
- NoteArrays.NoteArray.Tone: does not model the characters into which `aslist=True` flattens the strings, because the sort that follows raises before the characters are used.
- NoteArrays.Mask: requires non-empty intervals. It is only called with the tables' own tuples, which are all non-empty.
- NoteArrays.Collect: requires a non-empty table with non-empty tuples, which `Note.chords` and `Note.scales` are.
- NoteArrays.NoteArray.Sort: its ensures states the permutation and the order, not stability. Stability is proved of the index sort it uses, in NoteArrays.SortIndicesSorted and NoteArrays.SortedIsStable.
- Pitch.Enharmonic and PyText.Replace: `str.replace` with an empty pattern is not modelled. The code only replaces the five two-character patterns, '#', 'b' and the pitch letters, and the empty-letters case is handled separately.
- PyText.IsAsciiLetter: `str.isalpha` is restricted to ASCII letters. Non-ASCII letters do not occur in note names from the table.
- PyText.ParseInt: `int()` is modelled on ASCII decimal digits and ASCII whitespace only. Python also reads every Unicode decimal digit and strips all Unicode whitespace, so names such as `"C\u0664"` or `"C4\xa0"`, which have key 60 in Python, have no key in the model.
- NoteArrays.NoteArray.GetItem and NoteArrays.NoteArray.SetItem: only int indices are modelled, not slices. A slice assignment such as `a[0:1] = [x, y]` would change the list's length while `size` (bach.py:330) stays fixed, so `a * -1` (bach.py:400) would then reverse only `size` entries. The model's invariant `size == |list|` holds because slices are left out.
- Default argument values are not modelled; every operation takes all its arguments. These are `semitone=1` of add1 and transpose, `which=0` of the degrees, chord()'s `intervals=(0,4,7)`, sort's `mode="duration"` and `reverse=False`, and `aslist=True` of root() and tone(). chord()'s default root is modelled, as None in Harmony.Chord and as the int 0 in Harmony.ChordAsWritten.

## Findings

| source | as written | input that shows it | evidently intended | confidence | as-written member | corrected member |
|---|---|---|---|---|---|---|
| bach.py:177 | `"Db" in root` raises TypeError when root is the default int 0, including the recursive calls at bach.py:227 and bach.py:234 | `Note("C4").chord(1)` | the note is its own root when no root is given, and `chord(1)` is E4 | not executed | Harmony.ChordAsWrittenDefaultRootFails | Harmony.Chord |
| bach.py:133 | the guard `type != int or type != float` holds for every value, so `note * x` always raises | `Note("A4") * 2` | the `and` of `__rmul__` at bach.py:139, so `note * x == x * note` | not executed | Semitones.MulAsWrittenAlwaysRaises | Semitones.Mul |
| bach.py:469 | the sort key `k[x]` reads `x`, which only the probabilistic branch assigns, so exact-mode tone() raises NameError whenever some scale fits | `Note.array([Note("C4"), Note("E4"), Note("G4")]).tone()` | the fitting centres of every scale, as root() lists them for chords | not executed | NoteArrays.NoteArray.Tone | NoteArrays.TonesExactlyWhenFits |
