/** The quiz engine of the `Game` component. Its React state is the set of
    fields of the class `Game`; the value `GameState` gathers them, and each
    handler has a function giving the state it leaves behind from the state its
    closure sees (React applies the setters of one handler together, after the
    handler returns, so a handler reads the state as it was before it ran).
    localStorage is the map `store`. */
module Quiz {
  import opened Entries
  import opened Tally
  import Selection
  import Accuracy

  /** A symbol table: symbol to romanized label, in key order. */
  type Table = seq<(string, string)>

  /** localStorage, holding the tallies already decoded from JSON. */
  type Store = map<string, Tally>

  /** The storage key of a quiz mode. */
  function StorageKey(symbolType: string): string
  {
    "FailedSymbols_" + symbolType
  }

  /** Each quiz mode has a key of its own, so one mode never overwrites another's tally. */
  lemma StorageKeyInjective(a: string, b: string)
    requires StorageKey(a) == StorageKey(b)
    ensures a == b
  {
    var n := |"FailedSymbols_"|;
    assert a == StorageKey(a)[n..];
    assert b == StorageKey(b)[n..];
  }

  /** `JSON.parse(localStorage.getItem(key)) || {}`: a missing key reads as the empty tally. */
  function Load(store: Store, key: string): Tally
  {
    if key in store then store[key] else []
  }

  /** The component's state hooks, and localStorage. */
  datatype GameState = GameState(
    currentSymbol: string,
    lastSymbol: string,
    userInput: string,
    correctCount: int,
    wrongCount: int,
    showCorrectAnswer: bool,
    failedSymbols: Tally,
    learnedSymbols: set<string>,
    store: Store)

  // ---------------------------------------------------------------------------
  // The handlers as functions of the state

  /** `updateFailedSymbols(errors)`: the wrong count is the number of non-zero
      entries, and the tally, in state and in storage, is those entries sorted. */
  function Updated(s: GameState, symbolType: string, errors: Tally): GameState
  {
    var sortedErrors := Normalize(errors);
    s.(wrongCount := |NonZero(errors)|,
       failedSymbols := sortedErrors,
       store := s.store[StorageKey(symbolType) := sortedErrors])
  }

  /** `reset(clearFailedSymbol)`. */
  function AfterReset(s: GameState, symbolType: string, clearFailedSymbol: bool): GameState
  {
    var cleared := s.(lastSymbol := "", correctCount := 0, wrongCount := 0,
                      learnedSymbols := {}, showCorrectAnswer := false, userInput := "");
    if clearFailedSymbol then Updated(cleared, symbolType, []) else cleared
  }

  /** `userInput === symbols[currentSymbol]`. */
  predicate IsCorrect(symbols: Table, s: GameState)
  {
    Find(symbols, s.currentSymbol) == Some(s.userInput)
  }

  /** The correct branch of `checkUserInput()`. */
  function CorrectAnswer(symbols: Table, symbolType: string, s: GameState): GameState
  {
    var k := s.currentSymbol;
    var count := CountOf(s.failedSymbols, k);
    var shown := s.(showCorrectAnswer := true);
    var scored :=
      if count > 0 then Updated(shown, symbolType, Put(s.failedSymbols, k, count - 1))
      else if s.correctCount < |symbols| then shown.(correctCount := s.correctCount + 1)
      else shown;
    scored.(learnedSymbols := s.learnedSymbols + {k})
  }

  /** The wrong branch of `checkUserInput()`. */
  function WrongAnswer(symbolType: string, s: GameState): GameState
  {
    var k := s.currentSymbol;
    var count := CountOf(s.failedSymbols, k);
    var scored := Updated(s.(showCorrectAnswer := false), symbolType, Put(s.failedSymbols, k, count + 1));
    scored.(learnedSymbols := s.learnedSymbols - {k})
  }

  /** `checkUserInput()`: scores the answer, remembers the prompt as the last
      symbol, clears the input and draws the next prompt from the tally as it
      was before the answer. */
  function Checked(symbols: Table, symbolType: string, s: GameState, u1: real, u2: real): GameState
    requires |symbols| > 0 && Selection.IsDraw(u1) && Selection.IsDraw(u2)
  {
    var scored := if IsCorrect(symbols, s) then CorrectAnswer(symbols, symbolType, s) else WrongAnswer(symbolType, s);
    scored.(lastSymbol := s.currentSymbol,
            userInput := "",
            currentSymbol := Selection.RandomSymbol(s.failedSymbols, symbols, u1, u2))
  }

  /** The mount effect: reset, load this mode's stored tally, normalise and
      store it, and draw the first prompt from the tally as loaded. */
  function Mounted(symbols: Table, symbolType: string, s: GameState, u1: real, u2: real): GameState
    requires |symbols| > 0 && Selection.IsDraw(u1) && Selection.IsDraw(u2)
  {
    var r := AfterReset(s, symbolType, false);
    var storedErrors := Load(r.store, StorageKey(symbolType));
    Updated(r, symbolType, storedErrors).(
      currentSymbol := Selection.RandomSymbol(storedErrors, symbols, u1, u2))
  }

  // ---------------------------------------------------------------------------
  // Invariants

  /** What holds between handlers: the table is a non-empty object, the tally
      an object kept normal by every write, the correct count within the
      table's size, and the store holds the tally under this mode's key. */
  ghost predicate Consistent(symbols: Table, symbolType: string, s: GameState)
  {
    |symbols| > 0 && Distinct(symbols) &&
    Distinct(s.failedSymbols) && Normalize(s.failedSymbols) == s.failedSymbols &&
    0 <= s.correctCount <= |symbols| &&
    StorageKey(symbolType) in s.store && s.store[StorageKey(symbolType)] == s.failedSymbols
  }

  /** The wrong count is the number of symbols in the tally. */
  ghost predicate Counted(s: GameState)
  {
    s.wrongCount == |s.failedSymbols|
  }

  /** Every count in the tally is positive. */
  ghost predicate Positive(s: GameState)
  {
    AllPositive(s.failedSymbols)
  }

  /** The tally and the prompt only mention symbols of the table. */
  ghost predicate InTable(symbols: Table, s: GameState)
  {
    (forall k :: k in Keys(s.failedSymbols) ==> k in Keys(symbols)) &&
    s.currentSymbol in Keys(symbols)
  }

  // ---------------------------------------------------------------------------
  // Properties of the handlers

  /** `updateFailedSymbols` writes a normal tally, its size as the wrong
      count, and the same tally to the store; counts read as they did. */
  lemma UpdatedNormal(s: GameState, symbolType: string, errors: Tally)
    requires Distinct(errors)
    ensures var r := Updated(s, symbolType, errors);
      Distinct(r.failedSymbols) && Normalize(r.failedSymbols) == r.failedSymbols &&
      Counted(r) &&
      StorageKey(symbolType) in r.store && r.store[StorageKey(symbolType)] == r.failedSymbols &&
      forall k :: k in Keys(r.failedSymbols) ==> k in Keys(errors)
    ensures forall k :: CountOf(Updated(s, symbolType, errors).failedSymbols, k) == CountOf(errors, k)
  {
    NormalizeSpec(errors);
    NormalizeDistinct(errors);
    NormalizeIdempotent(errors);
    forall k
      ensures CountOf(Normalize(errors), k) == CountOf(errors, k)
    {
      NormalizeCount(errors, k);
    }
  }

  /** A load after `updateFailedSymbols` reads back the tally it stored, and a
      load after `reset(true)` reads back the empty tally. */
  lemma StoreThenLoad(s: GameState, symbolType: string, errors: Tally)
    ensures Load(Updated(s, symbolType, errors).store, StorageKey(symbolType)) == Normalize(errors)
    ensures Load(AfterReset(s, symbolType, true).store, StorageKey(symbolType)) == []
  {
    assert NonZero([]) == [];
  }

  /** `updateFailedSymbols` writes only this mode's storage key: the tally
      stored for any other mode reads as before. */
  lemma UpdatedOtherModes(s: GameState, symbolType: string, otherType: string, errors: Tally)
    requires otherType != symbolType
    ensures Load(Updated(s, symbolType, errors).store, StorageKey(otherType)) == Load(s.store, StorageKey(otherType))
  {
    if StorageKey(otherType) == StorageKey(symbolType) {
      StorageKeyInjective(otherType, symbolType);
    }
  }

  /** A correct answer moves the prompt's error count down by one while it is
      positive, dropping the entry when the count reaches zero, and no other
      count. */
  lemma CorrectCounts(symbols: Table, symbolType: string, s: GameState)
    requires Distinct(s.failedSymbols)
    ensures var r := CorrectAnswer(symbols, symbolType, s);
      var c := CountOf(s.failedSymbols, s.currentSymbol);
      CountOf(r.failedSymbols, s.currentSymbol) == (if c > 0 then c - 1 else c) &&
      (c > 0 ==> (s.currentSymbol in Keys(r.failedSymbols) <==> c > 1)) &&
      forall j :: j != s.currentSymbol ==> CountOf(r.failedSymbols, j) == CountOf(s.failedSymbols, j)
  {
    var c := CountOf(s.failedSymbols, s.currentSymbol);
    if c > 0 {
      NormalizePut(s.failedSymbols, s.currentSymbol, c - 1);
    }
  }

  /** A wrong answer moves the prompt's error count up by one (a symbol without
      an entry gets the count 1), and no other count. */
  lemma WrongCounts(symbolType: string, s: GameState)
    requires Distinct(s.failedSymbols)
    ensures var r := WrongAnswer(symbolType, s);
      var c := CountOf(s.failedSymbols, s.currentSymbol);
      CountOf(r.failedSymbols, s.currentSymbol) == c + 1 &&
      (s.currentSymbol in Keys(r.failedSymbols) <==> c + 1 != 0) &&
      forall j :: j != s.currentSymbol ==> CountOf(r.failedSymbols, j) == CountOf(s.failedSymbols, j)
  {
    NormalizePut(s.failedSymbols, s.currentSymbol, CountOf(s.failedSymbols, s.currentSymbol) + 1);
  }

  /** An answer moves the prompt's error count by one, down for a correct
      answer while it is positive and up for a wrong one, and no other count. */
  lemma CheckedCounts(symbols: Table, symbolType: string, s: GameState, u1: real, u2: real)
    requires |symbols| > 0 && Selection.IsDraw(u1) && Selection.IsDraw(u2)
    requires Distinct(s.failedSymbols)
    ensures var r := Checked(symbols, symbolType, s, u1, u2);
      var c := CountOf(s.failedSymbols, s.currentSymbol);
      CountOf(r.failedSymbols, s.currentSymbol) ==
        if !IsCorrect(symbols, s) then c + 1 else if c > 0 then c - 1 else c
    ensures var r := Checked(symbols, symbolType, s, u1, u2);
      var c := CountOf(s.failedSymbols, s.currentSymbol);
      (!IsCorrect(symbols, s) || c > 0) ==>
        (s.currentSymbol in Keys(r.failedSymbols) <==> CountOf(r.failedSymbols, s.currentSymbol) != 0)
    ensures var r := Checked(symbols, symbolType, s, u1, u2);
      forall j :: j != s.currentSymbol ==> CountOf(r.failedSymbols, j) == CountOf(s.failedSymbols, j)
  {
    if IsCorrect(symbols, s) {
      CorrectCounts(symbols, symbolType, s);
    } else {
      WrongCounts(symbolType, s);
    }
  }

  /** What a correct answer shows and scores: the answer is shown as right,
      the correct count rises by one when the prompt has no errors and the
      count is below the table's size, and the prompt joins the learned set. */
  lemma CorrectScore(symbols: Table, symbolType: string, s: GameState)
    ensures var r := CorrectAnswer(symbols, symbolType, s);
      r.showCorrectAnswer && r.learnedSymbols == s.learnedSymbols + {s.currentSymbol} &&
      r.correctCount ==
        if CountOf(s.failedSymbols, s.currentSymbol) <= 0 && s.correctCount < |symbols|
        then s.correctCount + 1 else s.correctCount
  {
  }

  /** What a wrong answer shows and scores: the answer is shown as wrong, the
      correct count stays, and the prompt leaves the learned set. */
  lemma WrongScore(symbolType: string, s: GameState)
    ensures var r := WrongAnswer(symbolType, s);
      !r.showCorrectAnswer && r.learnedSymbols == s.learnedSymbols - {s.currentSymbol} &&
      r.correctCount == s.correctCount
  {
  }

  /** What an answer shows and counts: the verdict is whether the input is the
      prompt's label; a correct answer on a symbol without errors adds one to
      the correct count unless it already equals the table's size, and no
      other answer changes it; the prompt joins the learned set on a correct
      answer and leaves it on a wrong one; the prompt becomes the last symbol,
      the input is cleared, and the next prompt comes from the error keys or
      the table as the tally was before the answer. */
  lemma CheckedScore(symbols: Table, symbolType: string, s: GameState, u1: real, u2: real)
    requires |symbols| > 0 && Selection.IsDraw(u1) && Selection.IsDraw(u2)
    ensures var r := Checked(symbols, symbolType, s, u1, u2);
      r.showCorrectAnswer <==> Find(symbols, s.currentSymbol) == Some(s.userInput)
    ensures var r := Checked(symbols, symbolType, s, u1, u2);
      r.correctCount ==
        if IsCorrect(symbols, s) && CountOf(s.failedSymbols, s.currentSymbol) <= 0 && s.correctCount < |symbols|
        then s.correctCount + 1 else s.correctCount
    ensures var r := Checked(symbols, symbolType, s, u1, u2);
      (s.currentSymbol in r.learnedSymbols <==> IsCorrect(symbols, s)) &&
      forall j :: j != s.currentSymbol ==> (j in r.learnedSymbols <==> j in s.learnedSymbols)
    ensures var r := Checked(symbols, symbolType, s, u1, u2);
      r.lastSymbol == s.currentSymbol && r.userInput == "" &&
      (if Selection.UsesErrorPool(s.failedSymbols, u1) then r.currentSymbol in Keys(s.failedSymbols)
       else r.currentSymbol in Keys(symbols))
  {
    if IsCorrect(symbols, s) {
      CorrectScore(symbols, symbolType, s);
    } else {
      WrongScore(symbolType, s);
    }
  }

  /** A correct answer keeps the state consistent, the wrong count the tally's
      size and an all-positive tally all-positive, and adds no key to the tally. */
  lemma CorrectKeeps(symbols: Table, symbolType: string, s: GameState)
    requires Consistent(symbols, symbolType, s)
    ensures var r := CorrectAnswer(symbols, symbolType, s);
      Consistent(symbols, symbolType, r) &&
      (Counted(s) ==> Counted(r)) &&
      (Positive(s) ==> Positive(r)) &&
      forall j :: j in Keys(r.failedSymbols) ==> j in Keys(s.failedSymbols)
  {
    var t, k := s.failedSymbols, s.currentSymbol;
    var c := CountOf(t, k);
    var r := CorrectAnswer(symbols, symbolType, s);
    if c > 0 {
      var p := Put(t, k, c - 1);
      NormalizePut(t, k, c - 1);
      FindKeys(t, k);
      assert r.failedSymbols == Normalize(p) && r.wrongCount == |NonZero(p)|;
      assert r.store == s.store[StorageKey(symbolType) := Normalize(p)];
    } else {
      assert r.failedSymbols == t && r.store == s.store && r.wrongCount == s.wrongCount;
    }
  }

  /** A wrong answer keeps the state consistent and an all-positive tally
      all-positive, leaves the wrong count the tally's size, and adds no key
      to the tally but the prompt. */
  lemma WrongKeeps(symbols: Table, symbolType: string, s: GameState)
    requires Consistent(symbols, symbolType, s)
    ensures var r := WrongAnswer(symbolType, s);
      Consistent(symbols, symbolType, r) && Counted(r) &&
      (Positive(s) ==> Positive(r)) &&
      forall j :: j in Keys(r.failedSymbols) ==> j == s.currentSymbol || j in Keys(s.failedSymbols)
  {
    var t, k := s.failedSymbols, s.currentSymbol;
    var c := CountOf(t, k);
    NormalizePut(t, k, c + 1);
    if Positive(s) {
      PositiveCount(t, k);
    }
  }

  /** An answer keeps every invariant: the state stays consistent, the wrong
      count stays the tally's size, an all-positive tally stays all-positive,
      and a tally and prompt within the table stay within it. */
  lemma CheckedKeeps(symbols: Table, symbolType: string, s: GameState, u1: real, u2: real)
    requires |symbols| > 0 && Selection.IsDraw(u1) && Selection.IsDraw(u2)
    requires Consistent(symbols, symbolType, s)
    ensures var r := Checked(symbols, symbolType, s, u1, u2);
      Consistent(symbols, symbolType, r) &&
      (Counted(s) ==> Counted(r)) &&
      (Positive(s) ==> Positive(r)) &&
      (InTable(symbols, s) ==> InTable(symbols, r))
  {
    if IsCorrect(symbols, s) {
      CorrectKeeps(symbols, symbolType, s);
    } else {
      WrongKeeps(symbols, symbolType, s);
    }
    if InTable(symbols, s) {
      Selection.RandomSymbolInTable(s.failedSymbols, symbols, u1, u2);
    }
  }

  /** A reset clears the session (last symbol, both counts, the learned set,
      the shown answer and the input) and keeps the prompt; it keeps the state
      consistent; clearing empties the tally in state and in storage, which is
      then counted and all-positive; without clearing the tally and the store
      stay. A second reset changes nothing. */
  lemma ResetKeeps(symbols: Table, symbolType: string, s: GameState, clearFailedSymbol: bool)
    ensures var r := AfterReset(s, symbolType, clearFailedSymbol);
      r.lastSymbol == "" && r.correctCount == 0 && r.wrongCount == 0 && r.learnedSymbols == {} &&
      !r.showCorrectAnswer && r.userInput == "" && r.currentSymbol == s.currentSymbol
    ensures var r := AfterReset(s, symbolType, clearFailedSymbol);
      clearFailedSymbol ==> r.store == s.store[StorageKey(symbolType) := []]
    ensures var r := AfterReset(s, symbolType, clearFailedSymbol);
      (Consistent(symbols, symbolType, s) ==> Consistent(symbols, symbolType, r)) &&
      (clearFailedSymbol ==> r.failedSymbols == [] && Counted(r) && Positive(r)) &&
      (!clearFailedSymbol ==> r.failedSymbols == s.failedSymbols && r.store == s.store) &&
      (Positive(s) ==> Positive(r)) &&
      (InTable(symbols, s) ==> InTable(symbols, r))
    ensures var r := AfterReset(s, symbolType, clearFailedSymbol);
      AfterReset(r, symbolType, clearFailedSymbol) == r
  {
    assert Normalize([]) == [];
  }

  /** The mount effect leaves a consistent, counted, fresh session: the tally
      is the stored one normalised, with every count read as stored, and
      unchanged when it was already normal; it is all-positive when no stored
      count is negative, and within the table when every stored key is a
      symbol. */
  lemma MountedKeeps(symbols: Table, symbolType: string, s: GameState, u1: real, u2: real)
    requires |symbols| > 0 && Distinct(symbols) && Selection.IsDraw(u1) && Selection.IsDraw(u2)
    requires Distinct(Load(s.store, StorageKey(symbolType)))
    ensures var r := Mounted(symbols, symbolType, s, u1, u2);
      Consistent(symbols, symbolType, r) && Counted(r) &&
      r.correctCount == 0 && r.learnedSymbols == {} && !r.showCorrectAnswer &&
      r.lastSymbol == "" && r.userInput == ""
    ensures var stored := Load(s.store, StorageKey(symbolType));
      var r := Mounted(symbols, symbolType, s, u1, u2);
      r.failedSymbols == Normalize(stored) &&
      (forall k :: CountOf(r.failedSymbols, k) == CountOf(stored, k)) &&
      (IsNormal(stored) ==> r.failedSymbols == stored) &&
      ((forall e :: e in stored ==> e.1 >= 0) ==> Positive(r)) &&
      ((forall k :: k in Keys(stored) ==> k in Keys(symbols)) ==> InTable(symbols, r))
    ensures var stored := Load(s.store, StorageKey(symbolType));
      var r := Mounted(symbols, symbolType, s, u1, u2);
      if Selection.UsesErrorPool(stored, u1) then r.currentSymbol in Keys(stored)
      else r.currentSymbol in Keys(symbols)
    ensures var r := Mounted(symbols, symbolType, s, u1, u2);
      forall m :: m != symbolType ==> Load(r.store, StorageKey(m)) == Load(s.store, StorageKey(m))
  {
    var stored := Load(s.store, StorageKey(symbolType));
    forall m | m != symbolType
      ensures Load(Mounted(symbols, symbolType, s, u1, u2).store, StorageKey(m)) == Load(s.store, StorageKey(m))
    {
      UpdatedOtherModes(AfterReset(s, symbolType, false), symbolType, m, stored);
    }
    UpdatedNormal(AfterReset(s, symbolType, false), symbolType, stored);
    NormalizeFixpoint(stored);
    NormalizePositive(stored);
    if forall k :: k in Keys(stored) ==> k in Keys(symbols) {
      Selection.RandomSymbolInTable(stored, symbols, u1, u2);
    }
  }

  /** Activating a mode again loads back the tally it left in storage: the
      tally survives a mode switch or a reload unchanged. */
  lemma RemountKeepsTally(symbols: Table, symbolType: string, s: GameState, u1: real, u2: real)
    requires Selection.IsDraw(u1) && Selection.IsDraw(u2)
    requires Consistent(symbols, symbolType, s)
    ensures var r := Mounted(symbols, symbolType, s, u1, u2);
      r.failedSymbols == s.failedSymbols && r.store == s.store && Counted(r)
  {
    assert Load(s.store, StorageKey(symbolType)) == s.failedSymbols;
  }

  /** The mount effect on a one-symbol table with nothing stored prompts that symbol. */
  lemma ScenarioMount(k: string, name: string, symbolType: string, s: GameState, u1: real, u2: real)
    requires Selection.IsDraw(u1) && Selection.IsDraw(u2)
    requires StorageKey(symbolType) !in s.store
    ensures var r := Mounted([(k, name)], symbolType, s, u1, u2);
      r.currentSymbol == k && r.failedSymbols == [] && r.correctCount == 0 && r.wrongCount == 0
  {
    assert Keys([(k, name)]) == [k];
    assert NonZero([]) == [];
  }

  /** One answer on a one-symbol table whose prompt is that symbol. */
  lemma ScenarioAnswer(k: string, name: string, symbolType: string, s: GameState, u1: real, u2: real)
    requires Selection.IsDraw(u1) && Selection.IsDraw(u2)
    requires s.currentSymbol == k && 0 <= s.correctCount <= 1
    requires s.failedSymbols == [] || s.failedSymbols == [(k, 1)]
    ensures var r := Checked([(k, name)], symbolType, s, u1, u2);
      r.currentSymbol == k && r.lastSymbol == k &&
      (r.showCorrectAnswer <==> s.userInput == name) &&
      (s.userInput == name && s.failedSymbols == [] ==>
         r.failedSymbols == [] && r.correctCount == 1 && r.wrongCount == s.wrongCount) &&
      (s.userInput == name && s.failedSymbols == [(k, 1)] ==>
         r.failedSymbols == [] && r.correctCount == s.correctCount && r.wrongCount == 0) &&
      (s.userInput != name && s.failedSymbols == [] ==>
         r.failedSymbols == [(k, 1)] && r.correctCount == s.correctCount && r.wrongCount == 1)
  {
    assert Keys([(k, name)]) == [k];
    assert Keys([(k, 1)]) == [k];
    assert Put([], k, 1) == [(k, 1)];
    assert Put([(k, 1)], k, 0) == [(k, 0)];
    assert NonZero([(k, 1)]) == [(k, 1)];
    assert NonZero([(k, 0)]) == [];
  }

  /** A one-symbol table played from a mode with nothing stored: the first
      prompt is the one symbol; a correct answer scores 100%; a wrong one
      records one error; the next correct answer pays that error back, which
      empties the tally and leaves the correct count as it was. */
  lemma SingleSymbolScenario(s0: GameState, s1: GameState, s2: GameState, s3: GameState, s4: GameState, u1: real, u2: real)
    requires Selection.IsDraw(u1) && Selection.IsDraw(u2)
    requires StorageKey("HIRAGANA") !in s0.store
    requires s1 == Mounted([("あ", "a")], "HIRAGANA", s0, u1, u2)
    requires s2 == Checked([("あ", "a")], "HIRAGANA", s1.(userInput := "a"), u1, u2)
    requires s3 == Checked([("あ", "a")], "HIRAGANA", s2.(userInput := "x"), u1, u2)
    requires s4 == Checked([("あ", "a")], "HIRAGANA", s3.(userInput := "a"), u1, u2)
    ensures s1.currentSymbol == "あ"
    ensures s2.showCorrectAnswer && s2.correctCount == 1 && s2.wrongCount == 0
    ensures Accuracy.AccuracyText(s2.correctCount, 1) == "100%"
    ensures !s3.showCorrectAnswer && s3.failedSymbols == [("あ", 1)] && s3.wrongCount == 1
    ensures s4.showCorrectAnswer && s4.failedSymbols == [] && s4.correctCount == 1 && s4.wrongCount == 0
  {
    ScenarioMount("あ", "a", "HIRAGANA", s0, u1, u2);
    ScenarioAnswer("あ", "a", "HIRAGANA", s1.(userInput := "a"), u1, u2);
    ScenarioAnswer("あ", "a", "HIRAGANA", s2.(userInput := "x"), u1, u2);
    ScenarioAnswer("あ", "a", "HIRAGANA", s3.(userInput := "a"), u1, u2);
    Accuracy.AccuracyExamples();
  }

  // ---------------------------------------------------------------------------
  // The component

  /** The component. Each handler is a method that changes the fields step by
      step as the source does; the function named in its `ensures` (`Updated`,
      `AfterReset`, `CorrectAnswer`, `WrongAnswer`, `Checked`, `Mounted`) is
      its specification, and the lemmas above state what those functions
      promise. */
  class Game {
    // props
    var symbols: Table
    var symbolType: string
    // state
    var currentSymbol: string
    var lastSymbol: string
    var userInput: string
    var correctCount: int
    var wrongCount: int
    var showCorrectAnswer: bool
    var failedSymbols: Tally
    var learnedSymbols: set<string>
    // localStorage
    var store: Store

    /** The state as a value. */
    ghost function State(): GameState
      reads this
    {
      GameState(currentSymbol, lastSymbol, userInput, correctCount, wrongCount,
                showCorrectAnswer, failedSymbols, learnedSymbols, store)
    }

    ghost predicate Valid()
      reads this
    {
      Consistent(symbols, symbolType, State())
    }

    /** The state of a freshly created component, before its mount effect runs. */
    constructor (symbols: Table, symbolType: string, store: Store)
      ensures this.symbols == symbols && this.symbolType == symbolType
      ensures State() == GameState("", "", "", 0, 0, false, [], {}, store)
    {
      this.symbols := symbols;
      this.symbolType := symbolType;
      this.store := store;
      currentSymbol, lastSymbol, userInput := "", "", "";
      correctCount, wrongCount, showCorrectAnswer := 0, 0, false;
      failedSymbols, learnedSymbols := [], {};
    }

    /** The input's onChange handler. */
    method SetUserInput(text: string)
      modifies this`userInput
      ensures State() == old(State()).(userInput := text)
      ensures old(Valid()) ==> Valid()
    {
      userInput := text;
    }

    /** `updateFailedSymbols(errors)`. */
    method UpdateFailedSymbols(errors: Tally)
      modifies this`wrongCount, this`failedSymbols, this`store
      ensures State() == Updated(old(State()), symbolType, errors)
    {
      var entries := NonZero(errors);
      wrongCount := |entries|;
      var sortedEntries := SortByCount(entries);
      failedSymbols := sortedEntries;
      store := store[StorageKey(symbolType) := sortedEntries];
    }

    /** `reset(clearFailedSymbol)`. */
    method Reset(clearFailedSymbol: bool)
      modifies this
      ensures symbols == old(symbols) && symbolType == old(symbolType)
      ensures State() == AfterReset(old(State()), symbolType, clearFailedSymbol)
      ensures old(Valid()) ==> Valid()
    {
      ghost var s0 := State();
      lastSymbol, correctCount, wrongCount, learnedSymbols, showCorrectAnswer, userInput :=
        "", 0, 0, {}, false, "";
      if clearFailedSymbol {
        UpdateFailedSymbols([]);
      }
      assert Normalize([]) == [];
    }

    /** The mount effect, run again whenever the quiz mode changes. */
    method Activate(newSymbols: Table, newType: string, u1: real, u2: real)
      requires |newSymbols| > 0 && Distinct(newSymbols)
      requires Distinct(Load(store, StorageKey(newType)))
      requires Selection.IsDraw(u1) && Selection.IsDraw(u2)
      modifies this
      ensures symbols == newSymbols && symbolType == newType
      ensures State() == Mounted(newSymbols, newType, old(State()), u1, u2)
      ensures Valid()
    {
      ghost var s0 := State();
      symbols, symbolType := newSymbols, newType;
      Reset(false);
      var storedErrors := Load(store, StorageKey(symbolType));
      UpdateFailedSymbols(storedErrors);
      currentSymbol := Selection.RandomSymbol(storedErrors, symbols, u1, u2);
      MountedKeeps(symbols, symbolType, s0, u1, u2);
    }

    /** The correct branch of `checkUserInput()`. */
    method RecordCorrect()
      modifies this
      ensures symbols == old(symbols) && symbolType == old(symbolType)
      ensures State() == CorrectAnswer(symbols, symbolType, old(State()))
    {
      showCorrectAnswer := true;
      var count := CountOf(failedSymbols, currentSymbol);
      if count > 0 {
        var updatedErrors := Put(failedSymbols, currentSymbol, count - 1);
        UpdateFailedSymbols(updatedErrors);
      } else if correctCount < |symbols| {
        correctCount := correctCount + 1;
      }
      learnedSymbols := learnedSymbols + {currentSymbol};
    }

    /** The wrong branch of `checkUserInput()`. */
    method RecordWrong()
      modifies this
      ensures symbols == old(symbols) && symbolType == old(symbolType)
      ensures State() == WrongAnswer(symbolType, old(State()))
    {
      showCorrectAnswer := false;
      var updatedErrors := Put(failedSymbols, currentSymbol, CountOf(failedSymbols, currentSymbol) + 1);
      UpdateFailedSymbols(updatedErrors);
      learnedSymbols := learnedSymbols - {currentSymbol};
    }

    /** `checkUserInput()`. The ghost result is the label whose pronunciation
        `playAudio` plays. */
    method CheckUserInput(u1: real, u2: real) returns (ghost played: Option<string>)
      requires |symbols| > 0
      requires Selection.IsDraw(u1) && Selection.IsDraw(u2)
      modifies this
      ensures symbols == old(symbols) && symbolType == old(symbolType)
      ensures State() == Checked(symbols, symbolType, old(State()), u1, u2)
      ensures old(Valid()) ==> Valid()
      ensures played == Find(symbols, lastSymbol)
    {
      ghost var s0 := State();
      var current, errorsBefore := currentSymbol, failedSymbols;
      if Find(symbols, currentSymbol) == Some(userInput) {
        RecordCorrect();
      } else {
        RecordWrong();
      }
      lastSymbol := current;
      played := Find(symbols, current);
      userInput := "";
      currentSymbol := Selection.RandomSymbol(errorsBefore, symbols, u1, u2);
      if Consistent(symbols, symbolType, s0) {
        CheckedKeeps(symbols, symbolType, s0, u1, u2);
      }
    }

    /** `calculateAccuracy()`: the correct count as a rounded percentage of the table's size. */
    function CalculateAccuracy(): (s: string)
      reads this
      requires |symbols| > 0 && correctCount >= 0
      ensures |s| >= 2 && s[|s| - 1] == '%' && Accuracy.IsDigits(s[..|s| - 1])
      ensures |s| > 2 ==> s[0] != '0'
      ensures Accuracy.ValueOf(s[..|s| - 1]) == Accuracy.Percent(correctCount, |symbols|)
      ensures correctCount <= |symbols| ==> Accuracy.ValueOf(s[..|s| - 1]) <= 100
    {
      Accuracy.AccuracyText(correctCount, |symbols|)
    }
  }
}
