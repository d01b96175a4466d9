/**
 * `Note.array`, a container of notes: indexing, concatenation, transposition,
 * repetition and reversal, the stable sort by an attribute, and the detectors
 * that report which chords (`root`) and scales (`tone`) contain all its notes.
 */
module NoteArrays {
  import opened Results
  import opened Pitch
  import opened Semitones
  import opened Harmony

  // ---------------------------------------------------------------------------
  // The stable sort behind sorted(range(size), key = ..., reverse = ...)

  /** Index `a` goes strictly before index `b`: a smaller attribute, or a larger one when `reverse`. */
  predicate Before(attrs: seq<real>, reverse: bool, a: nat, b: nat)
    requires a < |attrs| && b < |attrs|
  {
    if reverse then attrs[a] > attrs[b] else attrs[a] < attrs[b]
  }

  predicate InRange(s: seq<nat>, n: nat) {
    forall p :: 0 <= p < |s| ==> s[p] < n
  }

  /**
   * The order a stable sort puts two distinct indices in: by attribute, and by
   * position between equal attributes.
   */
  predicate Precedes(attrs: seq<real>, reverse: bool, a: nat, b: nat)
    requires a < |attrs| && b < |attrs|
  {
    Before(attrs, reverse, a, b) || (attrs[a] == attrs[b] && a < b)
  }

  /** Every index precedes every index listed after it. */
  predicate Sorted(attrs: seq<real>, reverse: bool, s: seq<nat>)
    requires InRange(s, |attrs|)
  {
    forall p, q :: 0 <= p < q < |s| ==> Precedes(attrs, reverse, s[p], s[q])
  }

  /** Inserts index `x` ahead of the first index it goes strictly before. */
  function Insert(attrs: seq<real>, reverse: bool, x: nat, s: seq<nat>): (r: seq<nat>)
    requires x < |attrs| && InRange(s, |attrs|)
    ensures InRange(r, |attrs|) && |r| == |s| + 1
    ensures forall p :: 0 <= p < |r| ==> r[p] == x || r[p] in s
    decreases |s|
  {
    if |s| == 0 then [x]
    else if Before(attrs, reverse, x, s[0]) then [x] + s
    else [s[0]] + Insert(attrs, reverse, x, s[1..])
  }

  /** The indices `0 .. n-1` in the order sorted() returns them: insertion, one index at a time. */
  function SortIndices(attrs: seq<real>, reverse: bool, n: nat): (r: seq<nat>)
    requires n <= |attrs|
    ensures InRange(r, n) && |r| == n
    decreases n
  {
    if n == 0 then [] else Insert(attrs, reverse, n - 1, SortIndices(attrs, reverse, n - 1))
  }

  /** The indices `0 .. n-1` in increasing order. */
  function Range(n: nat): (r: seq<nat>)
    ensures |r| == n && forall p :: 0 <= p < n ==> r[p] == p
    decreases n
  {
    if n == 0 then [] else Range(n - 1) + [n - 1]
  }

  /** Inserting an index larger than every other keeps the list sorted. */
  lemma {:induction false} InsertSorted(attrs: seq<real>, reverse: bool, x: nat, s: seq<nat>)
    requires x < |attrs| && InRange(s, x)
    requires Sorted(attrs, reverse, s)
    ensures Sorted(attrs, reverse, Insert(attrs, reverse, x, s))
    decreases |s|
  {
    if |s| == 0 {
    } else if Before(attrs, reverse, x, s[0]) {
      SortedAhead(attrs, reverse, x, s);
    } else {
      InsertSorted(attrs, reverse, x, s[1..]);
      SortedBehind(attrs, reverse, x, s, Insert(attrs, reverse, x, s[1..]));
    }
  }

  /** An index that goes strictly before the head of a sorted list can be put in front of it. */
  lemma SortedAhead(attrs: seq<real>, reverse: bool, x: nat, s: seq<nat>)
    requires x < |attrs| && InRange(s, |attrs|) && |s| > 0
    requires Sorted(attrs, reverse, s) && Before(attrs, reverse, x, s[0])
    ensures Sorted(attrs, reverse, [x] + s)
  {
    var r := [x] + s;
    forall p, q | 0 <= p < q < |r|
      ensures Precedes(attrs, reverse, r[p], r[q])
    {
      if p == 0 {
        assert r[q] == s[q - 1];
        if q > 1 {
          assert Precedes(attrs, reverse, s[0], s[q - 1]);
        }
      } else {
        assert r[p] == s[p - 1] && r[q] == s[q - 1];
      }
    }
  }

  /**
   * The head of a sorted list, not preceded by a larger index `x`, stays in front of the
   * rest with `x` inserted.
   */
  lemma SortedBehind(attrs: seq<real>, reverse: bool, x: nat, s: seq<nat>, t: seq<nat>)
    requires x < |attrs| && InRange(s, x) && |s| > 0 && InRange(t, |attrs|)
    requires Sorted(attrs, reverse, s) && !Before(attrs, reverse, x, s[0])
    requires Sorted(attrs, reverse, t) && forall p :: 0 <= p < |t| ==> t[p] == x || t[p] in s[1..]
    ensures Sorted(attrs, reverse, [s[0]] + t)
  {
    var r := [s[0]] + t;
    forall p, q | 0 <= p < q < |r|
      ensures Precedes(attrs, reverse, r[p], r[q])
    {
      if p == 0 {
        assert r[q] == t[q - 1];
        if r[q] != x {
          var j :| 0 <= j < |s[1..]| && s[1..][j] == r[q];
          assert Precedes(attrs, reverse, s[0], s[j + 1]);
        }
      } else {
        assert r[p] == t[p - 1] && r[q] == t[q - 1];
      }
    }
  }

  /** Insertion adds the inserted index and keeps every other. */
  lemma {:induction false} InsertPermutes(attrs: seq<real>, reverse: bool, x: nat, s: seq<nat>)
    requires x < |attrs| && InRange(s, |attrs|)
    ensures multiset(Insert(attrs, reverse, x, s)) == multiset(s) + multiset{x}
    decreases |s|
  {
    if |s| > 0 && !Before(attrs, reverse, x, s[0]) {
      InsertPermutes(attrs, reverse, x, s[1..]);
      assert s == [s[0]] + s[1..];
    }
  }

  /** sorted() returns every index once, in the order of a stable sort. */
  lemma {:induction false} SortIndicesSorted(attrs: seq<real>, reverse: bool, n: nat)
    requires n <= |attrs|
    ensures multiset(SortIndices(attrs, reverse, n)) == multiset(Range(n))
    ensures Sorted(attrs, reverse, SortIndices(attrs, reverse, n))
    decreases n
  {
    if n > 0 {
      var m: nat := n - 1;
      var s := SortIndices(attrs, reverse, m);
      SortIndicesSorted(attrs, reverse, m);
      InsertSorted(attrs, reverse, m, s);
      InsertPermutes(attrs, reverse, m, s);
      assert multiset(Range(n)) == multiset(Range(m)) + multiset{m};
    }
  }

  /**
   * Sorted in the stable order means: no index goes strictly before one listed ahead
   * of it, and indices with equal attributes keep their original order.
   */
  lemma SortedIsStable(attrs: seq<real>, reverse: bool, s: seq<nat>, p: nat, q: nat)
    requires InRange(s, |attrs|) && Sorted(attrs, reverse, s) && p < q < |s|
    ensures !Before(attrs, reverse, s[q], s[p])
    ensures attrs[s[p]] == attrs[s[q]] ==> s[p] < s[q]
  {
    assert Precedes(attrs, reverse, s[p], s[q]);
  }

  /** `[xs[i] for i in idx]`. */
  function Pick<T>(xs: seq<T>, idx: seq<nat>): (r: seq<T>)
    requires InRange(idx, |xs|)
    ensures |r| == |idx|
    decreases |idx|
  {
    if |idx| == 0 then [] else [xs[idx[0]]] + Pick(xs, idx[1..])
  }

  /** Position `p` of the picked list is the element at index `idx[p]`. */
  lemma {:induction false} PickAt<T>(xs: seq<T>, idx: seq<nat>, p: nat)
    requires InRange(idx, |xs|) && p < |idx|
    ensures Pick(xs, idx)[p] == xs[idx[p]]
    decreases p
  {
    if p > 0 {
      PickAt(xs, idx[1..], p - 1);
    }
  }

  /** Picking through an insertion adds the inserted element. */
  lemma {:induction false} PickInsert<T>(xs: seq<T>, attrs: seq<real>, reverse: bool, x: nat, s: seq<nat>)
    requires |xs| == |attrs| && x < |attrs| && InRange(s, |attrs|)
    ensures multiset(Pick(xs, Insert(attrs, reverse, x, s))) == multiset(Pick(xs, s)) + multiset{xs[x]}
    decreases |s|
  {
    if |s| > 0 && !Before(attrs, reverse, x, s[0]) {
      PickInsert(xs, attrs, reverse, x, s[1..]);
      var t := Insert(attrs, reverse, x, s[1..]);
      assert ([s[0]] + t)[1..] == t;
    } else if |s| > 0 {
      assert ([x] + s)[1..] == s;
    }
  }

  lemma PrefixGrows<T>(xs: seq<T>, n: nat)
    requires 0 < n <= |xs|
    ensures multiset(xs[..n]) == multiset(xs[..n - 1]) + multiset{xs[n - 1]}
  {
    assert xs[..n] == xs[..n - 1] + [xs[n - 1]];
  }

  /** Picking the elements in sorted order rearranges them and loses none. */
  lemma {:induction false} PickSortedPermutes<T>(xs: seq<T>, attrs: seq<real>, reverse: bool, n: nat)
    requires |xs| == |attrs| && n <= |xs|
    ensures multiset(Pick(xs, SortIndices(attrs, reverse, n))) == multiset(xs[..n])
    decreases n
  {
    if n > 0 {
      var m: nat := n - 1;
      var s := SortIndices(attrs, reverse, m);
      assert SortIndices(attrs, reverse, n) == Insert(attrs, reverse, m, s);
      PickSortedPermutes(xs, attrs, reverse, m);
      PickInsert(xs, attrs, reverse, m, s);
      PrefixGrows(xs, n);
    }
  }

  // ---------------------------------------------------------------------------
  // List comprehensions over the notes

  /**
   * A list comprehension `[f(i) for i in xs]` whose calls may raise: every result, or the
   * error of the first element whose call raises.
   */
  function MapResult<T, U>(f: T -> Result<U>, xs: seq<T>): (r: Result<seq<U>>)
    ensures r.Ok? <==> forall t :: 0 <= t < |xs| ==> f(xs[t]).Ok?
    ensures r.Ok? ==> |r.value| == |xs| && forall t :: 0 <= t < |xs| ==> r.value[t] == f(xs[t]).value
    decreases |xs|
  {
    if |xs| == 0 then Ok([])
    else match f(xs[0])
      case Err(e) => Err(e)
      case Ok(y) =>
        match MapResult(f, xs[1..])
        case Err(e) => Err(e)
        case Ok(ys) => Ok([y] + ys)
  }

  /** The comprehension stops at the first element whose call raises, with that error. */
  lemma {:induction false} MapResultFirstError<T, U>(f: T -> Result<U>, xs: seq<T>, t: nat)
    requires t < |xs| && f(xs[t]).Err?
    requires forall u :: 0 <= u < t ==> f(xs[u]).Ok?
    ensures MapResult(f, xs).Err? && MapResult(f, xs).error == f(xs[t]).error
    decreases t
  {
    if t > 0 {
      var rest := xs[1..];
      assert f(xs[0]).Ok?;
      MapResultFirstError(f, rest, t - 1);
    }
  }

  /** A failed comprehension failed at some first element. */
  lemma MapResultError<T, U>(f: T -> Result<U>, xs: seq<T>) returns (t: nat)
    requires MapResult(f, xs).Err?
    ensures t < |xs| && f(xs[t]).Err? && (forall u :: 0 <= u < t ==> f(xs[u]).Ok?)
    ensures MapResult(f, xs).error == f(xs[t]).error
  {
    var v :| 0 <= v < |xs| && f(xs[v]).Err?;
    FirstFailure(f, xs, v);
    t :| 0 <= t <= v && f(xs[t]).Err? && forall u :: 0 <= u < t ==> f(xs[u]).Ok?;
    MapResultFirstError(f, xs, t);
  }

  /** Below any failing element there is a first failing one. */
  lemma {:induction false} FirstFailure<T, U>(f: T -> Result<U>, xs: seq<T>, v: nat)
    requires v < |xs| && f(xs[v]).Err?
    ensures exists t :: 0 <= t <= v && f(xs[t]).Err? && forall u :: 0 <= u < t ==> f(xs[u]).Ok?
    decreases v
  {
    if forall u :: 0 <= u < v ==> f(xs[u]).Ok? {
      assert 0 <= v <= v && f(xs[v]).Err? && forall u :: 0 <= u < v ==> f(xs[u]).Ok?;
    } else {
      var w :| 0 <= w < v && f(xs[w]).Err?;
      FirstFailure(f, xs, w);
    }
  }

  /** `[i.key() for i in notes]`: every key, or the error of the first note without one. */
  function Keys(notes: seq<Note>): (r: Result<seq<int>>)
    ensures r.Ok? <==> forall t :: 0 <= t < |notes| ==> Key(notes[t]).Ok?
    ensures r.Ok? ==> |r.value| == |notes| && forall t :: 0 <= t < |notes| ==> r.value[t] == Key(notes[t]).value
  {
    MapResult(Key, notes)
  }

  /** The list comprehension stops at the first note without a key, with that note's error. */
  lemma KeysFirstError(notes: seq<Note>, t: nat)
    requires t < |notes| && Key(notes[t]).Err?
    requires forall u :: 0 <= u < t ==> Key(notes[u]).Ok?
    ensures Keys(notes).Err? && Keys(notes).error == Key(notes[t]).error
  {
    MapResultFirstError(Key, notes, t);
  }

  /** `[i.add1(semitone) for i in notes]`. */
  function Transposed(notes: seq<Note>, semitone: Operand): (r: Result<seq<Note>>)
    ensures r.Ok? ==> |r.value| == |notes|
    ensures r.Ok? ==> forall t :: 0 <= t < |notes| ==> Add1(notes[t], semitone).Ok? && r.value[t] == Add1(notes[t], semitone).value
  {
    MapResult(n => Add1(n, semitone), notes)
  }

  /**
   * Transposing fails exactly when there is a note and the semitone is not an int, or
   * some note has no key; the int check comes first, then the first keyless note.
   */
  lemma TransposedFails(notes: seq<Note>, semitone: Operand)
    ensures Transposed(notes, semitone).Ok? <==> |notes| == 0 || (semitone.IntArg? && Keys(notes).Ok?)
    ensures Transposed(notes, semitone).Err? ==>
      Transposed(notes, semitone).error == if !semitone.IntArg? then NotAnInteger else Keys(notes).error
  {
    var f := n => Add1(n, semitone);
    if MapResult(f, notes).Err? {
      var t := MapResultError(f, notes);
      if semitone.IntArg? {
        KeysFirstError(notes, t);
      }
    }
  }

  /** One transposed note has the original note's key moved by `s`. */
  lemma TransposedKeyAt(notes: seq<Note>, s: int, t: nat)
    requires Transposed(notes, IntArg(s)).Ok? && t < |notes|
    ensures Key(notes[t]).Ok? && Key(Transposed(notes, IntArg(s)).value[t]).Ok?
    ensures Key(Transposed(notes, IntArg(s)).value[t]).value == Key(notes[t]).value + s
  {
    ByKeyFacts();
  }

  /** Transposing a whole list moves every key by `s`. */
  lemma TransposedKeys(notes: seq<Note>, s: int)
    requires Transposed(notes, IntArg(s)).Ok?
    ensures Keys(Transposed(notes, IntArg(s)).value).Ok? && Keys(notes).Ok?
    ensures forall t :: 0 <= t < |notes| ==> Keys(Transposed(notes, IntArg(s)).value).value[t] == Keys(notes).value[t] + s
  {
    var ms := Transposed(notes, IntArg(s)).value;
    forall t | 0 <= t < |notes|
      ensures Key(notes[t]).Ok? && Key(ms[t]).Ok? && Key(ms[t]).value == Key(notes[t]).value + s
    {
      TransposedKeyAt(notes, s, t);
    }
  }

  /** `k` copies of `xs`, one after the other. */
  function Repeat<T>(xs: seq<T>, k: nat): seq<T>
    decreases k
  {
    if k == 0 then [] else Repeat(xs, k - 1) + xs
  }

  /** `k` copies hold `k` times as many elements. */
  lemma {:induction false} RepeatLength<T>(xs: seq<T>, k: nat)
    ensures |Repeat(xs, k)| == k * |xs|
    decreases k
  {
    if k > 0 {
      RepeatLength(xs, k - 1);
      MulSucc(k - 1, |xs|);
    }
  }

  /** One more copy in front is one more copy. */
  lemma {:induction false} RepeatPrepend<T>(xs: seq<T>, k: nat)
    ensures xs + Repeat(xs, k) == Repeat(xs, k + 1)
    decreases k
  {
    if k > 0 {
      var m: nat := k - 1;
      RepeatPrepend(xs, m);
      assert xs + Repeat(xs, k) == (xs + Repeat(xs, m)) + xs;
    }
  }

  /** The copies add up. */
  lemma {:induction false} RepeatAdds<T>(xs: seq<T>, a: nat, b: nat)
    ensures Repeat(xs, a) + Repeat(xs, b) == Repeat(xs, a + b)
    decreases b
  {
    if b > 0 {
      var m: nat := b - 1;
      RepeatAdds(xs, a, m);
      var c: nat := a + m;
      assert Repeat(xs, a + b) == Repeat(xs, c) + xs;
      assert Repeat(xs, a) + Repeat(xs, b) == (Repeat(xs, a) + Repeat(xs, m)) + xs;
    }
  }

  /** The elements of `xs` last first. */
  function Reversed<T>(xs: seq<T>): (r: seq<T>)
    ensures |r| == |xs|
    decreases |xs|
  {
    if |xs| == 0 then [] else Reversed(xs[1..]) + [xs[0]]
  }

  /** Position `i` of the reversal is position `|xs| - 1 - i` of the original. */
  lemma {:induction false} ReversedAt<T>(xs: seq<T>, i: nat)
    requires i < |xs|
    ensures Reversed(xs)[i] == xs[|xs| - 1 - i]
    decreases |xs|
  {
    if i < |xs| - 1 {
      ReversedAt(xs[1..], i);
    }
  }

  /** Reversing twice gives the list back. */
  lemma ReversedTwice<T>(xs: seq<T>)
    ensures Reversed(Reversed(xs)) == xs
  {
    forall i | 0 <= i < |xs|
      ensures Reversed(Reversed(xs))[i] == xs[i]
    {
      ReversedAt(Reversed(xs), i);
      ReversedAt(xs, |xs| - 1 - i);
    }
  }

  /** Reversal keeps every element. */
  lemma {:induction false} ReversedPermutes<T>(xs: seq<T>)
    ensures multiset(Reversed(xs)) == multiset(xs)
    decreases |xs|
  {
    if |xs| > 0 {
      ReversedPermutes(xs[1..]);
      assert xs == [xs[0]] + xs[1..];
    }
  }

  // ---------------------------------------------------------------------------
  // root() and tone(): the centres whose chord or scale holds every note

  /** The pitch classes `(key - j) % 12`, one per interval `j`, in the intervals' order. */
  function Belongs(key: int, iv: seq<int>): (r: seq<nat>)
    ensures |r| == |iv|
    decreases |iv|
  {
    if |iv| == 0 then [] else [((key - iv[0]) % 12) as nat] + Belongs(key, iv[1..])
  }

  lemma {:induction false} BelongsAt(key: int, iv: seq<int>)
    ensures forall j :: 0 <= j < |iv| ==> Belongs(key, iv)[j] == (key - iv[j]) % 12
    decreases |iv|
  {
    if |iv| > 0 {
      BelongsAt(key, iv[1..]);
    }
  }

  /** `[(i - j).note_index() for j in intervals]` for one note `i`. */
  function NoteBelongs(n: Note, iv: seq<int>): Result<seq<nat>>
    decreases |iv|
  {
    if |iv| == 0 then Ok([])
    else match Sub(n, IntArg(iv[0]))
      case Err(e) => Err(e)
      case Ok(d) =>
        match d
        case Interval(_) => Err(UnsupportedOperand)
        case Lowered(m) =>
          match NoteIndex(m)
          case Err(e) => Err(e)
          case Ok(c) =>
            match NoteBelongs(n, iv[1..])
            case Err(e) => Err(e)
            case Ok(cs) => Ok([c] + cs)
  }

  /** Lowering a note of key `x + j` by `j` gives a note of class `x % 12`. */
  lemma LoweredIndex(n: Note, j: int, x: int)
    requires Key(n).Ok? && x == Key(n).value - j
    ensures Sub(n, IntArg(j)).Ok? && Sub(n, IntArg(j)).value.Lowered?
    ensures NoteIndex(Sub(n, IntArg(j)).value.note).Ok?
    ensures NoteIndex(Sub(n, IntArg(j)).value.note).value == x % 12
  {
    SubTo(n, j, x);
    ClassOfByKey(Sub(n, IntArg(j)).value.note, x);
  }

  lemma ClassOfByKey(m: Note, x: int)
    requires m == ByKey(x)
    ensures NoteIndex(m).Ok? && NoteIndex(m).value == x % 12
  {
    ByKeyNoteIndex(x);
  }

  /** A note with a key has as belongs list the classes below that key. */
  lemma {:induction false} BelongsOfKey(n: Note, iv: seq<int>, key: int)
    requires Key(n).Ok? && Key(n).value == key
    ensures NoteBelongs(n, iv).Ok? && NoteBelongs(n, iv).value == Belongs(key, iv)
    decreases |iv|
  {
    if |iv| > 0 {
      var j := iv[0];
      var x := key - j;
      LoweredIndex(n, j, x);
      var rest := iv[1..];
      BelongsOfKey(n, rest, key);
      var c := NoteIndex(Sub(n, IntArg(j)).value.note).value;
      var cs := NoteBelongs(n, rest).value;
      assert NoteBelongs(n, iv).value == [c] + cs;
      BelongsCons(key, iv, x, c);
    }
  }

  lemma BelongsCons(key: int, iv: seq<int>, x: int, c: nat)
    requires |iv| > 0 && x == key - iv[0] && c == x % 12
    ensures Belongs(key, iv) == [c] + Belongs(key, iv[1..])
  {
  }

  /** A note without a key has no belongs list, with the key's error. */
  lemma BelongsWithoutKey(n: Note, iv: seq<int>)
    requires |iv| > 0 && Key(n).Err?
    ensures NoteBelongs(n, iv).Err? && NoteBelongs(n, iv).error == Key(n).error
  {
  }

  /** A note's belongs list exists exactly when the note has a key, and holds the classes below that key. */
  lemma NoteBelongsKeys(n: Note, iv: seq<int>)
    requires |iv| > 0
    ensures NoteBelongs(n, iv).Ok? <==> Key(n).Ok?
    ensures NoteBelongs(n, iv).Err? ==> NoteBelongs(n, iv).error == Key(n).error
    ensures NoteBelongs(n, iv).Ok? ==> NoteBelongs(n, iv).value == Belongs(Key(n).value, iv)
  {
    if Key(n).Ok? {
      BelongsOfKey(n, iv, Key(n).value);
    } else {
      BelongsWithoutKey(n, iv);
    }
  }

  /** Pitch class `k` is in the belongs list of every key. */
  predicate Fits(keys: seq<int>, iv: seq<int>, k: nat) {
    forall t :: 0 <= t < |keys| ==> k in Belongs(keys[t], iv)
  }

  /** A class belongs to a key exactly when some interval above the class lands on the key's class. */
  lemma InBelongs(key: int, iv: seq<int>, k: nat)
    requires k < 12
    ensures k in Belongs(key, iv) <==> exists j :: 0 <= j < |iv| && (k + iv[j]) % 12 == key % 12
  {
    BelongsAt(key, iv);
    if k in Belongs(key, iv) {
      var j :| 0 <= j < |iv| && Belongs(key, iv)[j] == k;
      ModShift(key, iv[j], k);
    }
    if exists j :: 0 <= j < |iv| && (k + iv[j]) % 12 == key % 12 {
      var j :| 0 <= j < |iv| && (k + iv[j]) % 12 == key % 12;
      ModShift(key, iv[j], k);
      assert Belongs(key, iv)[j] == k;
    }
  }

  lemma ModShift(a: int, b: int, k: nat)
    requires k < 12
    ensures (a - b) % 12 == k <==> (k + b) % 12 == a % 12
  {
    var q := (a - b) / 12;
    var r := (a - b) % 12;
    assert a == 12 * q + r + b;
  }

  /** One more key keeps a class exactly when the class belongs to it as well. */
  lemma FitsExtend(keys: seq<int>, key: int, iv: seq<int>, k: nat)
    ensures Fits(keys + [key], iv, k) <==> Fits(keys, iv, k) && k in Belongs(key, iv)
  {
    var more := keys + [key];
    assert more[|keys|] == key;
    assert forall t :: 0 <= t < |keys| ==> more[t] == keys[t];
  }

  /** The classes below `n` that fit every key, in increasing order. */
  function Centres(keys: seq<int>, iv: seq<int>, n: nat): seq<nat>
    decreases n
  {
    if n == 0 then [] else Centres(keys, iv, n - 1) + (if Fits(keys, iv, n - 1) then [n - 1] else [])
  }

  /** A class is a centre exactly when it fits; the centres strictly increase. */
  lemma {:induction false} CentresSpec(keys: seq<int>, iv: seq<int>, n: nat)
    ensures forall k: nat :: k in Centres(keys, iv, n) <==> k < n && Fits(keys, iv, k)
    ensures forall p, q :: 0 <= p < q < |Centres(keys, iv, n)| ==> Centres(keys, iv, n)[p] < Centres(keys, iv, n)[q]
    decreases n
  {
    if n > 0 {
      CentresSpec(keys, iv, n - 1);
      var c := Centres(keys, iv, n - 1);
      if Fits(keys, iv, n - 1) {
        assert Centres(keys, iv, n) == c + [n - 1];
        forall p | 0 <= p < |c|
          ensures c[p] < n - 1
        {
          assert c[p] in c;
        }
      } else {
        assert Centres(keys, iv, n) == c;
      }
    }
  }

  /** With no notes every class fits: the centres are all of `0 .. n - 1`. */
  lemma {:induction false} CentresOfNothing(iv: seq<int>, n: nat)
    ensures Centres([], iv, n) == Range(n)
    decreases n
  {
    if n > 0 {
      var m: nat := n - 1;
      CentresOfNothing(iv, m);
    }
  }

  /** More notes only remove centres. */
  lemma CentresShrink(keys: seq<int>, more: seq<int>, iv: seq<int>, n: nat)
    ensures forall k: nat :: k in Centres(keys + more, iv, n) ==> k in Centres(keys, iv, n)
  {
    CentresSpec(keys + more, iv, n);
    CentresSpec(keys, iv, n);
    forall k: nat | k < n && Fits(keys + more, iv, k)
      ensures Fits(keys, iv, k)
    {
      var all := keys + more;
      assert forall t :: 0 <= t < |keys| ==> all[t] == keys[t];
    }
  }

  /** `[item for item, x in enumerate(tone_values) if x == 1]` over the first `n` values. */
  function Ones(values: seq<int>, n: nat): seq<nat>
    requires n <= |values|
    decreases n
  {
    if n == 0 then [] else Ones(values, n - 1) + (if values[n - 1] == 1 then [n - 1] else [])
  }

  /** A mask of the fitting classes lists exactly the centres. */
  lemma {:induction false} OnesAreCentres(values: seq<int>, keys: seq<int>, iv: seq<int>, n: nat)
    requires n <= |values|
    requires forall k :: 0 <= k < n ==> (values[k] == 1 <==> Fits(keys, iv, k))
    ensures Ones(values, n) == Centres(keys, iv, n)
    decreases n
  {
    if n > 0 {
      var m: nat := n - 1;
      OnesAreCentres(values, keys, iv, m);
    }
  }

  /** A mask without a 1 lists nothing. */
  lemma {:induction false} NoOnes(values: seq<int>, n: nat)
    requires n <= |values| && forall k :: 0 <= k < n ==> values[k] != 1
    ensures Ones(values, n) == []
    decreases n
  {
    if n > 0 {
      var m: nat := n - 1;
      NoOnes(values, m);
    }
  }

  /** The inner loop: every class outside one note's belongs list drops to 0, the others stay. */
  method ClearOutside(toneValues: array<int>, belongs: seq<nat>)
    requires toneValues.Length == 12
    modifies toneValues
    ensures forall c :: 0 <= c < 12 ==> toneValues[c] == if c in belongs then old(toneValues[c]) else 0
  {
    for k := 0 to 12
      invariant forall c :: 0 <= c < k ==> toneValues[c] == if c in belongs then old(toneValues[c]) else 0
      invariant forall c :: k <= c < 12 ==> toneValues[c] == old(toneValues[c])
    {
      if k !in belongs {
        toneValues[k] := 0;
      }
    }
  }

  /** The keys of the first `t` notes, extended by the key of note `t`. */
  lemma KeysExtend(notes: seq<Note>, keys: seq<int>, t: nat, key: int)
    requires t < |notes| && |keys| == t
    requires forall u :: 0 <= u < t ==> Key(notes[u]).Ok? && keys[u] == Key(notes[u]).value
    requires Key(notes[t]).Ok? && key == Key(notes[t]).value
    ensures forall u :: 0 <= u < t + 1 ==> Key(notes[u]).Ok? && (keys + [key])[u] == Key(notes[u]).value
  {
    forall u | 0 <= u < t + 1
      ensures Key(notes[u]).Ok? && (keys + [key])[u] == Key(notes[u]).value
    {
      if u == t {
        assert (keys + [key])[u] == key;
      } else {
        assert (keys + [key])[u] == keys[u];
      }
    }
  }

  /**
   * `tone_values` after the note loop for one chord or scale: 1 at each class that fits
   * every note's key and 0 elsewhere, or the error of the first note without a key.
   */
  method Mask(notes: seq<Note>, iv: seq<int>) returns (r: Result<seq<int>>)
    requires |iv| > 0
    ensures r.Ok? <==> Keys(notes).Ok?
    ensures r.Err? ==> r.error == Keys(notes).error
    ensures r.Ok? ==> |r.value| == 12 && forall k :: 0 <= k < 12 ==> r.value[k] == if Fits(Keys(notes).value, iv, k) then 1 else 0
  {
    var toneValues := new int[12](_ => 1);
    ghost var keys: seq<int> := [];
    for t := 0 to |notes|
      invariant |keys| == t && forall u :: 0 <= u < t ==> Key(notes[u]).Ok? && keys[u] == Key(notes[u]).value
      invariant forall k :: 0 <= k < 12 ==> toneValues[k] == if Fits(keys, iv, k) then 1 else 0
    {
      var note := notes[t];
      var belongs := NoteBelongs(note, iv);
      NoteBelongsKeys(note, iv);
      if belongs.Err? {
        KeysFirstError(notes, t);
        return Err(belongs.error);
      }
      ghost var key := Key(note).value;
      ClearOutside(toneValues, belongs.value);
      forall c: nat | c < 12 {
        FitsExtend(keys, key, iv, c);
      }
      KeysExtend(notes, keys, t, key);
      keys := keys + [key];
    }
    assert Keys(notes).Ok? && Keys(notes).value == keys;
    r := Ok(toneValues[..]);
  }

  /** What root() and tone() report for one centre: a `(root, name)` pair, or one joined string. */
  datatype Match = Pair(root: string, kind: string) | Joined(name: string)

  /** A centre `k` found to fit under the table entry `name`. */
  datatype Found = Found(centre: nat, name: string)

  /**
   * The reported form of centre `k` of table entry `name`. root() writes pairs when `aslist`
   * and joins the names otherwise; tone() does the opposite and puts a space between the names.
   */
  function Entry(k: nat, name: string, asList: bool, forScales: bool): Match {
    if !forScales then
      (if asList then Pair(SetsAt(k), name) else Joined(SetsAt(k) + name))
    else
      (if asList then Joined(SetsAt(k) + " " + name) else Pair(SetsAt(k), name))
  }

  /** `[... for note in indexes]`: the reported form of each centre, in the same order. */
  function Entries(ks: seq<nat>, name: string, asList: bool, forScales: bool): (r: seq<Match>)
    ensures |r| == |ks|
  {
    seq(|ks|, p requires 0 <= p < |ks| => Entry(ks[p], name, asList, forScales))
  }

  /** The reported form of each found centre, in the same order. */
  function Render(fs: seq<Found>, asList: bool, forScales: bool): (r: seq<Match>)
    ensures |r| == |fs|
  {
    seq(|fs|, p requires 0 <= p < |fs| => Entry(fs[p].centre, fs[p].name, asList, forScales))
  }

  /** Every name of the ordered list is a key of the table. */
  predicate Covers(names: seq<string>, table: map<string, seq<int>>) {
    forall p :: 0 <= p < |names| ==> names[p] in table
  }

  /** The centres found under one name. */
  function FoundUnder(ks: seq<nat>, name: string): (r: seq<Found>)
    ensures |r| == |ks|
  {
    seq(|ks|, p requires 0 <= p < |ks| => Found(ks[p], name))
  }

  /** The fitting centres of the first `i` names of a table for the given keys, name by name. */
  function Listing(keys: seq<int>, names: seq<string>, table: map<string, seq<int>>, i: nat): seq<Found>
    requires Covers(names, table) && i <= |names|
    decreases i
  {
    if i == 0 then []
    else
      var name := names[i - 1];
      Listing(keys, names, table, i - 1) + FoundUnder(Centres(keys, table[name], 12), name)
  }

  /** root()'s result for notes with these keys. */
  function Roots(keys: seq<int>, asList: bool): seq<Match> {
    ChordNamesListed();
    Render(Listing(keys, ChordNames, Chords, |ChordNames|), asList, false)
  }

  /** What tone()'s exact mode evidently means to return: the fitting centres of every scale. */
  function Tones(keys: seq<int>, asList: bool): seq<Match> {
    ScaleNamesListed();
    Render(Listing(keys, ScaleNames, Scales, |ScaleNames|), asList, true)
  }

  /** Some scale of the table holds every key around some centre. */
  predicate SomeScaleFits(keys: seq<int>) {
    ScaleNamesListed();
    exists p, k: nat :: 0 <= p < |ScaleNames| && k < 12 && Fits(keys, Scales[ScaleNames[p]], k)
  }

  /** Rendering the next name's centres appends their reported forms. */
  lemma RenderAppend(fs: seq<Found>, ks: seq<nat>, name: string, asList: bool, forScales: bool)
    ensures Render(fs + FoundUnder(ks, name), asList, forScales) == Render(fs, asList, forScales) + Entries(ks, name, asList, forScales)
  {
    var all := fs + FoundUnder(ks, name);
    forall p | 0 <= p < |all|
      ensures Render(all, asList, forScales)[p] == (Render(fs, asList, forScales) + Entries(ks, name, asList, forScales))[p]
    {
      if p >= |fs| {
        assert all[p] == Found(ks[p - |fs|], name);
      } else {
        assert all[p] == fs[p];
      }
    }
  }

  /** One name's found centres are exactly its fitting classes. */
  lemma FoundUnderMembers(keys: seq<int>, iv: seq<int>, name: string)
    ensures forall f :: f in FoundUnder(Centres(keys, iv, 12), name) <==> f.name == name && f.centre < 12 && Fits(keys, iv, f.centre)
  {
    var cs := Centres(keys, iv, 12);
    CentresSpec(keys, iv, 12);
    var fs := FoundUnder(cs, name);
    forall f: Found
      ensures f in fs <==> f.name == name && f.centre < 12 && Fits(keys, iv, f.centre)
    {
      if f in fs {
        var p :| 0 <= p < |fs| && fs[p] == f;
        assert cs[p] in cs;
      }
      if f.name == name && f.centre < 12 && Fits(keys, iv, f.centre) {
        assert f.centre in cs;
        var p :| 0 <= p < |cs| && cs[p] == f.centre;
        assert fs[p] == f;
      }
    }
  }

  /**
   * One step of the loop over the names: the entries collected from the mask of name `i`
   * extend the rendered listing of the first `i` names to the first `i + 1`.
   */
  lemma CollectStep(values: seq<int>, keys: seq<int>, names: seq<string>, table: map<string, seq<int>>, i: nat,
                    asList: bool, forScales: bool, result: seq<Match>)
    requires Covers(names, table) && i < |names|
    requires |values| == 12 && forall k :: 0 <= k < 12 ==> values[k] == if Fits(keys, table[names[i]], k) then 1 else 0
    requires result == Render(Listing(keys, names, table, i), asList, forScales)
    ensures (if 1 in values then result + Entries(Ones(values, 12), names[i], asList, forScales) else result)
      == Render(Listing(keys, names, table, i + 1), asList, forScales)
  {
    var name := names[i];
    var cs := Centres(keys, table[name], 12);
    OnesAreCentres(values, keys, table[name], 12);
    RenderAppend(Listing(keys, names, table, i), cs, name, asList, forScales);
    if 1 !in values {
      NoOnes(values, 12);
    }
  }

  /** A centre is found exactly when it fits one of the first `i` names. */
  lemma {:induction false} ListingMembers(keys: seq<int>, names: seq<string>, table: map<string, seq<int>>, i: nat)
    requires Covers(names, table) && i <= |names|
    ensures forall f :: f in Listing(keys, names, table, i) <==>
      exists p :: 0 <= p < i && f.name == names[p] && f.centre < 12 && Fits(keys, table[names[p]], f.centre)
    decreases i
  {
    if i > 0 {
      ListingMembers(keys, names, table, i - 1);
      FoundUnderMembers(keys, table[names[i - 1]], names[i - 1]);
      ListingUnfold(keys, names, table, i);
      var before := Listing(keys, names, table, i - 1);
      var under := FoundUnder(Centres(keys, table[names[i - 1]], 12), names[i - 1]);
      forall f: Found
        ensures f in Listing(keys, names, table, i) <==> exists p :: 0 <= p < i && f.name == names[p] && f.centre < 12 && Fits(keys, table[names[p]], f.centre)
      {
        ListingStep(before, under, keys, names, table, i, f);
      }
    }
  }

  lemma ListingUnfold(keys: seq<int>, names: seq<string>, table: map<string, seq<int>>, i: nat)
    requires Covers(names, table) && 0 < i <= |names|
    ensures Listing(keys, names, table, i) == Listing(keys, names, table, i - 1) + FoundUnder(Centres(keys, table[names[i - 1]], 12), names[i - 1])
  {
  }

  /** The step of ListingMembers for one found centre `f`: the first `i - 1` names, then name `i - 1`. */
  lemma ListingStep(before: seq<Found>, under: seq<Found>, keys: seq<int>, names: seq<string>, table: map<string, seq<int>>, i: nat, f: Found)
    requires Covers(names, table) && 0 < i <= |names|
    requires f in before <==>
      exists p :: 0 <= p < i - 1 && f.name == names[p] && f.centre < 12 && Fits(keys, table[names[p]], f.centre)
    requires f in under <==> f.name == names[i - 1] && f.centre < 12 && Fits(keys, table[names[i - 1]], f.centre)
    ensures f in before + under <==>
      exists p :: 0 <= p < i && f.name == names[p] && f.centre < 12 && Fits(keys, table[names[p]], f.centre)
  {
    var h: nat := i - 1;
    if f in before + under {
      if f in before {
        var p :| 0 <= p < h && f.name == names[p] && f.centre < 12 && Fits(keys, table[names[p]], f.centre);
        assert 0 <= p < i && f.name == names[p] && f.centre < 12 && Fits(keys, table[names[p]], f.centre);
      } else {
        assert f in under;
        assert 0 <= h < i && f.name == names[h] && f.centre < 12 && Fits(keys, table[names[h]], f.centre);
      }
    }
    if exists p :: 0 <= p < i && f.name == names[p] && f.centre < 12 && Fits(keys, table[names[p]], f.centre) {
      var p :| 0 <= p < i && f.name == names[p] && f.centre < 12 && Fits(keys, table[names[p]], f.centre);
      if p < h {
        assert f in before;
      } else {
        assert f in under;
      }
    }
  }

  /** Every key's pitch class is `k` plus one of the intervals, modulo 12. */
  predicate OnIntervals(keys: seq<int>, iv: seq<int>, k: nat) {
    forall t :: 0 <= t < |keys| ==> exists j :: 0 <= j < |iv| && (k + iv[j]) % 12 == keys[t] % 12
  }

  /** A class fits exactly when every key's class lies on the intervals above it. */
  lemma FitsMeans(keys: seq<int>, iv: seq<int>, k: nat)
    requires k < 12
    ensures Fits(keys, iv, k) <==> OnIntervals(keys, iv, k)
  {
    if Fits(keys, iv, k) {
      forall t | 0 <= t < |keys|
        ensures exists j :: 0 <= j < |iv| && (k + iv[j]) % 12 == keys[t] % 12
      {
        InBelongs(keys[t], iv, k);
      }
    } else {
      var t :| 0 <= t < |keys| && k !in Belongs(keys[t], iv);
      InBelongs(keys[t], iv, k);
    }
  }

  /** A class that fits more keys fits fewer. */
  lemma FitsShrink(keys: seq<int>, more: seq<int>, iv: seq<int>, k: nat)
    requires Fits(keys + more, iv, k)
    ensures Fits(keys, iv, k)
  {
    var all := keys + more;
    forall t | 0 <= t < |keys|
      ensures k in Belongs(keys[t], iv)
    {
      assert all[t] == keys[t];
    }
  }

  /** A listing is non-empty exactly when some centre fits some name. */
  lemma ListingNonEmpty(keys: seq<int>, names: seq<string>, table: map<string, seq<int>>)
    requires Covers(names, table)
    ensures |Listing(keys, names, table, |names|)| > 0 <==>
      exists p, k: nat :: 0 <= p < |names| && k < 12 && Fits(keys, table[names[p]], k)
  {
    var l := Listing(keys, names, table, |names|);
    ListingMembers(keys, names, table, |names|);
    if |l| > 0 {
      assert l[0] in l;
      var p :| 0 <= p < |names| && l[0].name == names[p] && l[0].centre < 12 && Fits(keys, table[names[p]], l[0].centre);
      var c: nat := l[0].centre;
      assert 0 <= p < |names| && c < 12 && Fits(keys, table[names[p]], c);
    }
    if exists p, k: nat :: 0 <= p < |names| && k < 12 && Fits(keys, table[names[p]], k) {
      var p, k: nat :| 0 <= p < |names| && k < 12 && Fits(keys, table[names[p]], k);
      assert Found(k, names[p]) in l;
    }
  }

  /** Rendered as pairs, `(Note.sets[k], name)` is listed exactly when `k` fits under `name`. */
  lemma ListingHasPair(keys: seq<int>, names: seq<string>, table: map<string, seq<int>>, name: string, k: nat, p0: nat)
    requires Covers(names, table) && p0 < |names| && names[p0] == name && k < 12
    ensures Pair(SetsAt(k), name) in Render(Listing(keys, names, table, |names|), true, false) <==> Fits(keys, table[name], k)
  {
    var l := Listing(keys, names, table, |names|);
    ListingMembers(keys, names, table, |names|);
    var rs := Render(l, true, false);
    if Pair(SetsAt(k), name) in rs {
      var q :| 0 <= q < |rs| && rs[q] == Pair(SetsAt(k), name);
      assert l[q] in l;
      SetsAtInjective(l[q].centre, k);
      assert l[q] == Found(k, name);
    }
    if Fits(keys, table[name], k) {
      assert Found(k, name) in l;
      var q :| 0 <= q < |l| && l[q] == Found(k, name);
      assert rs[q] == Pair(SetsAt(k), name);
    }
  }

  /** With no keys, every centre of every name is listed. */
  lemma ListingOfNothing(names: seq<string>, table: map<string, seq<int>>, asList: bool, forScales: bool, p0: nat, k: nat)
    requires Covers(names, table) && p0 < |names| && k < 12
    ensures Entry(k, names[p0], asList, forScales) in Render(Listing([], names, table, |names|), asList, forScales)
  {
    var l := Listing([], names, table, |names|);
    ListingMembers([], names, table, |names|);
    assert Fits([], table[names[p0]], k);
    assert Found(k, names[p0]) in l;
    var q :| 0 <= q < |l| && l[q] == Found(k, names[p0]);
    assert Render(l, asList, forScales)[q] == Entry(k, names[p0], asList, forScales);
  }

  /** More keys only remove found centres from a listing. */
  lemma FoundShrink(keys: seq<int>, more: seq<int>, names: seq<string>, table: map<string, seq<int>>)
    requires Covers(names, table)
    ensures forall f :: f in Listing(keys + more, names, table, |names|) ==> f in Listing(keys, names, table, |names|)
  {
    ListingMembers(keys + more, names, table, |names|);
    ListingMembers(keys, names, table, |names|);
    forall f | f in Listing(keys + more, names, table, |names|)
      ensures f in Listing(keys, names, table, |names|)
    {
      var p :| 0 <= p < |names| && f.name == names[p] && f.centre < 12 && Fits(keys + more, table[names[p]], f.centre);
      FitsShrink(keys, more, table[names[p]], f.centre);
    }
  }

  /** Rendering keeps inclusion between lists of found centres. */
  lemma RenderSubset(a: seq<Found>, b: seq<Found>, asList: bool, forScales: bool)
    requires forall f :: f in a ==> f in b
    ensures forall m :: m in Render(a, asList, forScales) ==> m in Render(b, asList, forScales)
  {
    forall m | m in Render(a, asList, forScales)
      ensures m in Render(b, asList, forScales)
    {
      var q :| 0 <= q < |a| && Render(a, asList, forScales)[q] == m;
      assert a[q] in a;
      var s :| 0 <= s < |b| && b[s] == a[q];
      assert Render(b, asList, forScales)[s] == m;
    }
  }

  /** More keys only remove entries from a rendered listing. */
  lemma ListingShrink(keys: seq<int>, more: seq<int>, names: seq<string>, table: map<string, seq<int>>, asList: bool, forScales: bool)
    requires Covers(names, table)
    ensures forall m :: m in Render(Listing(keys + more, names, table, |names|), asList, forScales) ==>
      m in Render(Listing(keys, names, table, |names|), asList, forScales)
  {
    FoundShrink(keys, more, names, table);
    RenderSubset(Listing(keys + more, names, table, |names|), Listing(keys, names, table, |names|), asList, forScales);
  }

  /** With `aslist`, root() reports the pair `(Note.sets[k], chord)` exactly when the chord on `k` holds every note. */
  lemma RootReports(keys: seq<int>, chord: string, k: nat)
    requires chord in Chords && k < 12
    ensures Pair(SetsAt(k), chord) in Roots(keys, true) <==> OnIntervals(keys, Chords[chord], k)
  {
    ChordNamesListed();
    var p0 := ChordPosition(chord);
    ListingHasPair(keys, ChordNames, Chords, chord, k, p0);
    FitsMeans(keys, Chords[chord], k);
  }

  /** An empty array lies in every chord around every centre. */
  lemma RootsOfNothing(asList: bool, chord: string, k: nat)
    requires chord in Chords && k < 12
    ensures Entry(k, chord, asList, false) in Roots([], asList)
  {
    ChordNamesListed();
    var p0 := ChordPosition(chord);
    ListingOfNothing(ChordNames, Chords, asList, false, p0, k);
  }

  /** Adding notes to an array only removes reported chords. */
  lemma RootsShrink(keys: seq<int>, more: seq<int>, asList: bool)
    ensures forall m :: m in Roots(keys + more, asList) ==> m in Roots(keys, asList)
  {
    ChordNamesListed();
    ListingShrink(keys, more, ChordNames, Chords, asList, false);
  }

  /** The evidently intended tone() result is non-empty exactly when some scale fits. */
  lemma TonesExactlyWhenFits(keys: seq<int>, asList: bool)
    ensures |Tones(keys, asList)| > 0 <==> SomeScaleFits(keys)
  {
    ScaleNamesListed();
    ListingNonEmpty(keys, ScaleNames, Scales);
  }

  /** The C major triad C4 E4 G4 lies in C major: tone() as written raises for it instead of listing it. */
  lemma ToneOfCMajorTriad(asList: bool)
    ensures SomeScaleFits([60, 64, 67])
    ensures |Tones([60, 64, 67], asList)| > 0
  {
    MajorIsFirst();
    TriadFits([60, 64, 67], Scales[ScaleNames[0]]);
    TonesExactlyWhenFits([60, 64, 67], asList);
  }

  lemma TriadFits(keys: seq<int>, iv: seq<int>)
    requires keys == [60, 64, 67] && iv == [0, 2, 4, 5, 7, 9, 11, 12]
    ensures Fits(keys, iv, 0)
  {
    BelongsAt(keys[0], iv);
    BelongsAt(keys[1], iv);
    BelongsAt(keys[2], iv);
    assert Belongs(keys[0], iv)[0] == 0;
    assert Belongs(keys[1], iv)[2] == 0;
    assert Belongs(keys[2], iv)[4] == 0;
  }

  /**
   * The loop shared by root() and tone(): for each name in order, the mask of its intervals
   * over the notes, and the reported form of every centre the mask keeps.
   */
  method Collect(notes: seq<Note>, names: seq<string>, table: map<string, seq<int>>, asList: bool, forScales: bool)
    returns (r: Result<seq<Match>>)
    requires Covers(names, table) && |names| > 0
    requires forall p :: 0 <= p < |names| ==> |table[names[p]]| > 0
    ensures r.Ok? <==> Keys(notes).Ok?
    ensures r.Err? ==> r.error == Keys(notes).error
    ensures r.Ok? ==> r.value == Render(Listing(Keys(notes).value, names, table, |names|), asList, forScales)
  {
    var result: seq<Match> := [];
    for i := 0 to |names|
      invariant i > 0 ==> Keys(notes).Ok? && result == Render(Listing(Keys(notes).value, names, table, i), asList, forScales)
      invariant i == 0 ==> result == []
    {
      var name := names[i];
      var toneValues := Mask(notes, table[name]);
      if toneValues.Err? {
        return Err(toneValues.error);
      }
      ghost var before := result;
      if 1 in toneValues.value {
        var indexes := Ones(toneValues.value, 12);
        result := result + Entries(indexes, name, asList, forScales);
      }
      CollectStep(toneValues.value, Keys(notes).value, names, table, i, asList, forScales, before);
    }
    return Ok(result);
  }

  // ---------------------------------------------------------------------------
  // The container

  /** What an operation of Note.array hands back: a plain list, a new Note.array over a list, or None. */
  datatype Value = ListOf(notes: seq<Note>) | ArrayOf(notes: seq<Note>) | NoneValue

  /** The three attributes sort() accepts as its mode. */
  predicate IsSortMode(mode: string) {
    mode == "duration" || mode == "pitch" || mode == "dynamic"
  }

  /** The attribute of a note that sort() orders by; a key compares as a number. */
  function Attribute(n: Note, mode: string): real
    requires IsSortMode(mode) && (mode == "pitch" ==> Key(n).Ok?)
  {
    if mode == "duration" then n.duration
    else if mode == "pitch" then Key(n).value as real
    else n.dynamic
  }

  /** `a` may come before `b` in sort()'s result: its attribute is not larger (not smaller when `reverse`). */
  predicate InOrder(mode: string, reverse: bool, a: Note, b: Note) {
    && IsSortMode(mode) && (mode == "pitch" ==> Key(a).Ok? && Key(b).Ok?)
    && if reverse then Attribute(a, mode) >= Attribute(b, mode) else Attribute(a, mode) <= Attribute(b, mode)
  }

  /** Picking the notes in a sorted order of their attributes puts them in order. */
  lemma PickInOrder(notes: seq<Note>, mode: string, reverse: bool, attrs: seq<real>, idx: seq<nat>)
    requires |attrs| == |notes| && InRange(idx, |notes|) && Sorted(attrs, reverse, idx)
    requires IsSortMode(mode) && forall t :: 0 <= t < |notes| ==> (mode == "pitch" ==> Key(notes[t]).Ok?) && attrs[t] == Attribute(notes[t], mode)
    ensures forall p, q :: 0 <= p < q < |idx| ==> InOrder(mode, reverse, Pick(notes, idx)[p], Pick(notes, idx)[q])
  {
    forall p, q | 0 <= p < q < |idx|
      ensures InOrder(mode, reverse, Pick(notes, idx)[p], Pick(notes, idx)[q])
    {
      PickAt(notes, idx, p);
      PickAt(notes, idx, q);
      SortedIsStable(attrs, reverse, idx, p, q);
    }
  }

  class NoteArray {
    /** `self.list`. */
    var list: seq<Note>
    /** `self.size`: the length when the array was built. */
    const size: nat

    /** Only __setitem__ writes the list, and it keeps the length. */
    predicate Valid()
      reads this
    {
      size == |list|
    }

    /** `Note.array(note_list)`. */
    constructor (noteList: seq<Note>)
      ensures Valid() && list == noteList
    {
      size := |noteList|;
      list := noteList;
    }

    /** `self[index]`: list indexing, a negative index counting from the end. */
    function GetItem(index: int): (r: Result<Note>)
      reads this
      ensures r.Ok? <==> -|list| <= index < |list|
      ensures r.Ok? ==> r.value == list[index % |list|]
      ensures r.Err? ==> r.error == IndexOutOfRange
    {
      if 0 <= index < |list| then
        DivModUnique(index, |list|, 0, index);
        Ok(list[index])
      else if -|list| <= index < 0 then
        DivModUnique(index, |list|, -1, |list| + index);
        Ok(list[|list| + index])
      else Err(IndexOutOfRange)
    }

    /** `self[index] = value`: the one entry replaced, the length kept. */
    method SetItem(index: int, value: Note) returns (r: Result<()>)
      requires Valid()
      modifies this
      ensures Valid() && |list| == |old(list)|
      ensures r.Ok? <==> -|list| <= index < |list|
      ensures r.Err? ==> r.error == IndexOutOfRange && list == old(list)
      ensures r.Ok? ==> GetItem(index).Ok? && GetItem(index).value == value
      ensures r.Ok? ==> forall j :: 0 <= j < |list| && j != index % |list| ==> list[j] == old(list)[j]
    {
      if 0 <= index < |list| {
        DivModUnique(index, |list|, 0, index);
        list := list[index := value];
      } else if -|list| <= index < 0 {
        DivModUnique(index, |list|, -1, |list| + index);
        list := list[|list| + index := value];
      } else {
        return Err(IndexOutOfRange);
      }
      r := Ok(());
    }

    /** `len(self)`: the length of the list, which is the size fixed at construction. */
    function Len(): (r: nat)
      reads this
      requires Valid()
      ensures r == |list| && r == size
    {
      |list|
    }

    /** `[self[-i] for i in range(1, self.size + 1)]`: the notes last first. */
    function Backwards(): (r: seq<Note>)
      reads this
      requires Valid()
      ensures r == Reversed(list)
    {
      var l := list;
      var b := seq(size, i requires 0 <= i < |l| => l[|l| - 1 - i]);
      assert forall i | 0 <= i < |l| :: b[i] == Reversed(l)[i] by {
        forall i | 0 <= i < |l| ensures b[i] == Reversed(l)[i] {
          ReversedAt(l, i);
        }
      }
      b
    }

    /**
     * `transpose(semitone)`: each note moved by add1, as a plain list; every key moves
     * by the semitone.
     */
    function Transpose(semitone: Operand): (r: Result<seq<Note>>)
      reads this
      ensures r.Ok? <==> |list| == 0 || (semitone.IntArg? && Keys(list).Ok?)
      ensures r.Err? ==> r.error == if !semitone.IntArg? then NotAnInteger else Keys(list).error
      ensures r.Ok? ==> |r.value| == |list|
      ensures r.Ok? && semitone.IntArg? ==> Keys(r.value).Ok? && Keys(list).Ok?
      ensures r.Ok? && semitone.IntArg? ==> forall t :: 0 <= t < |list| ==> Keys(r.value).value[t] == Keys(list).value[t] + semitone.i
    {
      TransposedFails(list, semitone);
      if semitone.IntArg? && Transposed(list, semitone).Ok? then
        TransposedKeys(list, semitone.i);
        Transposed(list, semitone)
      else Transposed(list, semitone)
    }

    /** `change_duration(d)`: each note with the new duration, as a plain list. */
    function ChangeDurations(d: real): (r: seq<Note>)
      reads this
      ensures |r| == |list|
      ensures forall t :: 0 <= t < |list| ==> r[t].duration == d && r[t].dynamic == list[t].dynamic && Name1(r[t]) == Name1(list[t])
    {
      var l := list;
      seq(|l|, t requires 0 <= t < |l| => ChangeDuration(l[t], d))
    }

    /** `change_dynamic(v)`: each note with the new dynamic, as a plain list. */
    function ChangeDynamics(v: real): (r: seq<Note>)
      reads this
      ensures |r| == |list|
      ensures forall t :: 0 <= t < |list| ==> r[t].dynamic == v && r[t].duration == list[t].duration && Name1(r[t]) == Name1(list[t])
    {
      var l := list;
      seq(|l|, t requires 0 <= t < |l| => ChangeDynamic(l[t], v))
    }

    /** `self + other`: an int transposes (a plain list), an array is appended, a note is appended; anything else gives None. */
    function Plus(other: Operand): (r: Result<Value>)
      reads this
      ensures other.IntArg? ==> (r.Ok? <==> Transpose(other).Ok?)
      ensures other.IntArg? && r.Ok? ==> r.value == ListOf(Transpose(other).value)
      ensures other.IntArg? && r.Err? ==> r.error == Transpose(other).error
      ensures other.ArrayArg? ==> r.Ok? && r.value.ArrayOf? && |r.value.notes| == |list| + |other.notes|
      ensures other.ArrayArg? ==> r.value.notes[..|list|] == list && r.value.notes[|list|..] == other.notes
      ensures other.NoteArg? ==> r.Ok? && r.value.ArrayOf? && |r.value.notes| == |list| + 1
      ensures other.NoteArg? ==> r.value.notes[..|list|] == list && r.value.notes[|list|] == other.n
      ensures !other.IntArg? && !other.ArrayArg? && !other.NoteArg? ==> r.Ok? && r.value.NoneValue?
    {
      match other
      case IntArg(_) =>
        (match Transpose(other)
         case Err(e) => Err(e)
         case Ok(ns) => Ok(ListOf(ns)))
      case ArrayArg(notes) => Ok(ArrayOf(list + notes))
      case NoteArg(n) => Ok(ArrayOf(list + [n]))
      case _ => Ok(NoneValue)
    }

    /**
     * `other + self` (`__radd__`): an int transposes, a note is prepended; an array is
     * appended after this one's notes, as for `self + other`.
     */
    function RPlus(other: Operand): (r: Result<Value>)
      reads this
      ensures other.IntArg? ==> (r.Ok? <==> Transpose(other).Ok?)
      ensures other.IntArg? && r.Ok? ==> r.value == ListOf(Transpose(other).value)
      ensures other.IntArg? && r.Err? ==> r.error == Transpose(other).error
      ensures other.ArrayArg? ==> r.Ok? && r.value.ArrayOf? && |r.value.notes| == |list| + |other.notes|
      ensures other.ArrayArg? ==> r.value.notes[..|list|] == list && r.value.notes[|list|..] == other.notes
      ensures other.NoteArg? ==> r.Ok? && r.value.ArrayOf? && |r.value.notes| == |list| + 1
      ensures other.NoteArg? ==> r.value.notes[0] == other.n && r.value.notes[1..] == list
      ensures !other.IntArg? && !other.ArrayArg? && !other.NoteArg? ==> r.Ok? && r.value.NoneValue?
    {
      match other
      case IntArg(_) =>
        (match Transpose(other)
         case Err(e) => Err(e)
         case Ok(ns) => Ok(ListOf(ns)))
      case ArrayArg(notes) => Ok(ArrayOf(list + notes))
      case NoteArg(n) => Ok(ArrayOf([n] + list))
      case _ => Ok(NoneValue)
    }

    /** `self - other`: an int transposes down (a plain list); anything else gives None. */
    function Minus(other: Operand): (r: Result<Value>)
      reads this
      ensures other.IntArg? ==> (r.Ok? <==> |list| == 0 || Keys(list).Ok?)
      ensures other.IntArg? && r.Ok? ==> r.value.ListOf? && |r.value.notes| == |list|
      ensures other.IntArg? && r.Ok? ==> Keys(r.value.notes).Ok? && Keys(list).Ok?
      ensures other.IntArg? && r.Ok? ==> forall t :: 0 <= t < |list| ==> Keys(r.value.notes).value[t] == Keys(list).value[t] - other.i
      ensures other.IntArg? && r.Err? ==> r.error == Keys(list).error
      ensures !other.IntArg? ==> r.Ok? && r.value.NoneValue?
    {
      if other.IntArg? then
        match Transpose(IntArg(-other.i))
        case Err(e) => Err(e)
        case Ok(ns) => Ok(ListOf(ns))
      else Ok(NoneValue)
    }

    /**
     * `self * other` and `other * self`: a positive int gives that many copies, a negative
     * one that many copies of the reversed notes; zero and other operands give None.
     */
    method Times(other: Operand) returns (r: Value)
      requires Valid()
      ensures other.IntArg? && other.i > 0 ==> r == ArrayOf(Repeat(list, other.i))
      ensures other.IntArg? && other.i < 0 ==> r == ArrayOf(Repeat(Reversed(list), -other.i))
      ensures !(other.IntArg? && other.i != 0) ==> r == NoneValue
    {
      if other.IntArg? && other.i > 0 {
        var result := list;
        for i := 0 to other.i - 1
          invariant result == Repeat(list, i + 1)
        {
          result := result + list;
        }
        return ArrayOf(result);
      } else if other.IntArg? && other.i < 0 {
        var result := Backwards();
        for i := 0 to -other.i - 1
          invariant result == Repeat(Reversed(list), i + 1)
        {
          RepeatPrepend(Reversed(list), i + 1);
          result := Backwards() + result;
        }
        return ArrayOf(result);
      }
      return NoneValue;
    }

    /** `-self`: the notes reversed, in a new array. */
    method Negate() returns (r: Value)
      requires Valid()
      ensures r.ArrayOf? && r.notes == Reversed(list)
    {
      r := Times(IntArg(-1));
      assert Repeat(Reversed(list), 1) == Reversed(list);
    }

    /** The attribute list sort() orders by, or the error it stops at. */
    function Attributes(mode: string): (r: Result<seq<real>>)
      reads this
      ensures r.Ok? <==> IsSortMode(mode) && (mode == "pitch" ==> Keys(list).Ok?)
      ensures r.Err? ==> r.error == if !IsSortMode(mode) then InvalidSortMode else Keys(list).error
      ensures r.Ok? ==> |r.value| == |list| && forall t :: 0 <= t < |list| ==> r.value[t] == Attribute(list[t], mode)
    {
      var l := list;
      if !IsSortMode(mode) then Err(InvalidSortMode)
      else if mode == "pitch" && Keys(l).Err? then Err(Keys(l).error)
      else Ok(seq(|l|, t requires 0 <= t < |l| => Attribute(l[t], mode)))
    }

    /**
     * `sort(mode, reverse)`: a new array of the notes in the stable order of their
     * attribute, largest first when `reverse`; an unknown mode raises.
     */
    function Sort(mode: string, reverse: bool): (r: Result<Value>)
      reads this
      requires Valid()
      ensures r.Ok? <==> Attributes(mode).Ok?
      ensures r.Err? ==> r.error == Attributes(mode).error
      ensures r.Ok? ==> r.value.ArrayOf? && multiset(r.value.notes) == multiset(list)
      ensures r.Ok? ==> |r.value.notes| == |list|
      ensures r.Ok? ==> forall p, q :: 0 <= p < q < |list| ==> InOrder(mode, reverse, r.value.notes[p], r.value.notes[q])
    {
      match Attributes(mode)
      case Err(e) => Err(e)
      case Ok(attrs) =>
        SortIndicesSorted(attrs, reverse, size);
        PickSortedPermutes(list, attrs, reverse, size);
        assert list[..size] == list;
        PickInOrder(list, mode, reverse, attrs, SortIndices(attrs, reverse, size));
        Ok(ArrayOf(Pick(list, SortIndices(attrs, reverse, size))))
    }

    /**
     * `root(aslist)`: for each chord of the table in order, the centres whose chord holds
     * every note, in increasing order; or the error of the first note without a key.
     */
    method Root(asList: bool) returns (r: Result<seq<Match>>)
      requires Valid()
      ensures r.Ok? <==> Keys(list).Ok?
      ensures r.Err? ==> r.error == Keys(list).error
      ensures r.Ok? ==> r.value == Roots(Keys(list).value, asList)
    {
      ChordNamesListed();
      r := Collect(list, ChordNames, Chords, asList, false);
    }

    /**
     * `tone(aslist)` in its exact mode. The scales' entries are collected as in root(), but
     * sorting the flattened entries evaluates the sort key `k[x]`, and `x` is only assigned in
     * the probabilistic mode: whenever some scale fits, the call raises NameError, and otherwise
     * it returns the empty list. A note without a key raises first.
     */
    method Tone(asList: bool) returns (r: Result<seq<Match>>)
      requires Valid()
      ensures r.Ok? <==> Keys(list).Ok? && !SomeScaleFits(Keys(list).value)
      ensures r.Ok? ==> r.value == []
      ensures r.Err? ==> r.error == if Keys(list).Err? then Keys(list).error else UndefinedSortKey
    {
      ScaleNamesListed();
      var result := Collect(list, ScaleNames, Scales, asList, true);
      if result.Err? {
        return Err(result.error);
      }
      TonesExactlyWhenFits(Keys(list).value, asList);
      // The flattened list is empty exactly when `result` is, since every entry is non-empty.
      if |result.value| > 0 {
        return Err(UndefinedSortKey);
      }
      return Ok([]);
    }
  }
}
