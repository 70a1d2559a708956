/**
 * The vocabulary quiz (`components/WordQuiz.tsx`): a four-view state machine
 * (module selection, quiz, mistake book, word administration), a per-turn
 * answered/correct state, answer checking and the mistake book with
 * check-before-insert.
 */
module WordQuiz {
  import opened Wrappers
  import opened Types
  import opened Text
  import opened Seqs

  /** The views of the quiz component. */
  datatype View = SelectionView | QuizView | MistakesView | AdminView

  /** The answer is right when the trimmed, lower-cased input equals the lower-cased target; the target is not trimmed. */
  predicate AnswerCorrect(input: string, english: string) {
    ToLower(Trim(input)) == ToLower(english)
  }

  /** White space typed around an answer never changes its verdict. */
  lemma AnswerIgnoresSurroundingSpace(pre: string, input: string, post: string, english: string)
    requires AllSpace(pre) && AllSpace(post)
    ensures AnswerCorrect(pre + input + post, english) == AnswerCorrect(input, english)
  {
    TrimSurrounding(pre, input, post);
  }

  /** Two inputs that differ only in letter case get the same verdict. */
  lemma AnswerIgnoresCase(input: string, other: string, english: string)
    requires ToLower(input) == ToLower(other)
    ensures AnswerCorrect(input, english) == AnswerCorrect(other, english)
  {
    TrimToLower(input);
    TrimToLower(other);
  }

  /** A target word that starts or ends with white space can never be answered correctly. */
  lemma PaddedTargetNeverMatches(input: string, english: string)
    requires english != [] && (IsSpace(english[0]) || IsSpace(english[|english| - 1]))
    ensures !AnswerCorrect(input, english)
  {
  }

  /** A word whose characters lower-case one by one to `lower` lower-cases to `lower`. */
  lemma LowerCaseWord(s: string, lower: string)
    requires |s| == |lower| && forall i :: 0 <= i < |s| ==> LowerChar(s[i]) == lower[i]
    ensures ToLower(s) == lower
  {
  }

  lemma PersistenceLower()
    ensures ToLower("Persistence") == "persistence"
  {
    LowerCaseWord("Persistence", "persistence");
  }

  lemma PersistenceIsLower()
    ensures ToLower("persistence") == "persistence"
  {
    LowerCaseWord("persistence", "persistence");
  }

  lemma PersistenceTrim()
    ensures Trim("Persistence ") == "Persistence"
  {
    var s := "Persistence ";
    assert TrimStart(s) == s;
    assert s[..|s| - 1] == "Persistence";
    assert TrimEnd(s) == TrimEnd("Persistence");
    assert TrimEnd("Persistence") == "Persistence";
  }

  /** A trailing space is ignored: "Persistence " answers "persistence". */
  lemma TrailingSpaceExample()
    ensures AnswerCorrect("Persistence ", "persistence")
  {
    PersistenceTrim();
    PersistenceLower();
    PersistenceIsLower();
  }

  lemma StrategyLower()
    ensures ToLower("STRATEGY") == "strategy"
  {
    LowerCaseWord("STRATEGY", "strategy");
  }

  lemma StrategyIsLower()
    ensures ToLower("strategy") == "strategy"
  {
    LowerCaseWord("strategy", "strategy");
  }

  lemma StrategyTrim()
    ensures Trim("STRATEGY") == "STRATEGY"
  {
    assert TrimStart("STRATEGY") == "STRATEGY";
    assert TrimEnd("STRATEGY") == "STRATEGY";
  }

  /** Upper case is ignored: "STRATEGY" answers "strategy". */
  lemma UpperCaseExample()
    ensures AnswerCorrect("STRATEGY", "strategy")
  {
    StrategyTrim();
    StrategyLower();
    StrategyIsLower();
  }

  /** A prefix of the word is wrong: "persisten" does not answer "persistence". */
  lemma PrefixExample()
    ensures !AnswerCorrect("persisten", "persistence")
  {
  }

  /** `Array.from(new Set(words.map(w => w.module)))`: every module once, in first-occurrence order. */
  function WordModules(words: seq<Word>): (r: seq<string>)
    ensures NoDuplicates(r)
    ensures forall j :: 0 <= j < |words| ==> words[j].moduleName in r
    ensures forall i :: 0 <= i < |r| ==> exists j :: 0 <= j < |words| && words[j].moduleName == r[i]
  {
    var names := Map(words, (w: Word) => w.moduleName);
    var r := Distinct(names);
    assert forall j :: 0 <= j < |words| ==> names[j] == words[j].moduleName;
    r
  }

  /** `words.filter(w => w.module === moduleName)`. */
  function WordsOfModule(words: seq<Word>, moduleName: string): (r: seq<Word>)
    ensures forall i :: 0 <= i < |r| ==> r[i] in words && r[i].moduleName == moduleName
    ensures forall j :: 0 <= j < |words| && words[j].moduleName == moduleName ==> words[j] in r
  {
    Filter(words, (w: Word) => w.moduleName == moduleName)
  }

  /** `words.filter(x => x.id !== id)`. */
  function WordsWithout(words: seq<Word>, id: string): (r: seq<Word>)
    ensures forall i :: 0 <= i < |r| ==> r[i] in words && r[i].id != id
    ensures forall j :: 0 <= j < |words| && words[j].id != id ==> words[j] in r
  {
    Filter(words, (w: Word) => w.id != id)
  }

  /** Deleting a word keeps the other words in their order: deletion distributes over concatenation. */
  lemma DeleteWordKeepsOrder(front: seq<Word>, back: seq<Word>, id: string)
    ensures WordsWithout(front + back, id) == WordsWithout(front, id) + WordsWithout(back, id)
  {
    FilterConcat(front, back, (w: Word) => w.id != id);
  }

  /** Deleting a word removes every copy of a word with that id and no other word. */
  lemma DeleteWordCount(words: seq<Word>, id: string, w: Word)
    ensures multiset(WordsWithout(words, id))[w] == if w.id == id then 0 else multiset(words)[w]
  {
    FilterCount(words, (x: Word) => x.id != id, w);
  }

  /** `mistakes.filter(m => m.id !== id)`. */
  function MistakesWithout(mistakes: seq<MistakeRecord>, id: string): (r: seq<MistakeRecord>)
    ensures forall i :: 0 <= i < |r| ==> r[i] in mistakes && r[i].id != id
    ensures forall j :: 0 <= j < |mistakes| && mistakes[j].id != id ==> mistakes[j] in r
  {
    Filter(mistakes, (m: MistakeRecord) => m.id != id)
  }

  /** Whether `mistakes.find(m => m.wordId === wordId)` finds a record. */
  predicate HasMistakeFor(mistakes: seq<MistakeRecord>, wordId: string) {
    exists i :: 0 <= i < |mistakes| && mistakes[i].wordId == wordId
  }

  /** At most one record per word. */
  ghost predicate UniqueWordIds(mistakes: seq<MistakeRecord>) {
    UniqueKeys(mistakes, (m: MistakeRecord) => m.wordId)
  }

  /** Check-before-insert: prepend a record for `w` unless one for that word exists already. */
  function RecordMistake(mistakes: seq<MistakeRecord>, w: Word, id: string, date: string): (r: seq<MistakeRecord>)
    ensures HasMistakeFor(r, w.id)
    ensures |r| <= |mistakes| + 1
    ensures HasMistakeFor(mistakes, w.id) ==> r == mistakes
    ensures !HasMistakeFor(mistakes, w.id) ==>
      |r| == |mistakes| + 1 && r[1..] == mistakes &&
      r[0] == MistakeRecord(id, w.id, w.english, w.chinese, date)
  {
    if HasMistakeFor(mistakes, w.id) then mistakes
    else
      var r := [MistakeRecord(id, w.id, w.english, w.chinese, date)] + mistakes;
      assert r[0].wordId == w.id;
      r
  }

  /** Recording a mistake adds one record exactly when the word had none, and keeps every word's record unique. */
  lemma RecordMistakeKeepsUnique(mistakes: seq<MistakeRecord>, w: Word, id: string, date: string)
    requires UniqueWordIds(mistakes)
    ensures UniqueWordIds(RecordMistake(mistakes, w, id, date))
    ensures |RecordMistake(mistakes, w, id, date)| ==
            if HasMistakeFor(mistakes, w.id) then |mistakes| else |mistakes| + 1
  {
    if !HasMistakeFor(mistakes, w.id) {
      var r := RecordMistake(mistakes, w, id, date);
      forall i, j | 0 <= i < j < |r| ensures r[i].wordId != r[j].wordId {
        assert r[j] == mistakes[j - 1];
        if i > 0 {
          assert r[i] == mistakes[i - 1];
        }
      }
    }
  }

  /** Answering the same word wrongly a second time records nothing more. */
  lemma RecordMistakeTwice(mistakes: seq<MistakeRecord>, w: Word, id1: string, date1: string,
                           id2: string, date2: string)
    ensures RecordMistake(RecordMistake(mistakes, w, id1, date1), w, id2, date2)
         == RecordMistake(mistakes, w, id1, date1)
  {
  }

  /** Removing by id keeps every word's record unique. */
  lemma RemoveMistakeKeepsUnique(mistakes: seq<MistakeRecord>, id: string)
    requires UniqueWordIds(mistakes)
    ensures UniqueWordIds(MistakesWithout(mistakes, id))
  {
    FilterKeepsUniqueKeys(mistakes, (m: MistakeRecord) => m.id != id, (m: MistakeRecord) => m.wordId);
  }

  /** Removing by id keeps the other records in their order: removal distributes over concatenation. */
  lemma RemoveMistakeKeepsOrder(front: seq<MistakeRecord>, back: seq<MistakeRecord>, id: string)
    ensures MistakesWithout(front + back, id) == MistakesWithout(front, id) + MistakesWithout(back, id)
  {
    FilterConcat(front, back, (m: MistakeRecord) => m.id != id);
  }

  /** Removing by id removes every copy of a record with that id and no other record. */
  lemma RemoveMistakeCount(mistakes: seq<MistakeRecord>, id: string, m: MistakeRecord)
    ensures multiset(MistakesWithout(mistakes, id))[m] == if m.id == id then 0 else multiset(mistakes)[m]
  {
    FilterCount(mistakes, (x: MistakeRecord) => x.id != id, m);
  }

  /** The state of one mounted quiz component, with the word list and mistake book it writes through. */
  class Quiz {
    var words: seq<Word>
    var mistakes: seq<MistakeRecord>
    const isAdmin: bool
    var view: View
    var activeModule: string
    var quizWords: seq<Word>
    var currentIndex: nat
    var userInput: string
    var isAnswered: bool
    var isCorrect: bool

    /** The current index points at a word of the round, or is 0 for an empty round; only an administrator reaches the admin view. */
    ghost predicate Valid()
      reads this
    {
      && (currentIndex < |quizWords| || (quizWords == [] && currentIndex == 0))
      && (view == AdminView ==> isAdmin)
    }

    constructor (words: seq<Word>, mistakes: seq<MistakeRecord>, isAdmin: bool)
      ensures Valid()
      ensures this.words == words && this.mistakes == mistakes && this.isAdmin == isAdmin
      ensures view == SelectionView && activeModule == "" && quizWords == [] && currentIndex == 0
      ensures userInput == "" && !isAnswered && !isCorrect
    {
      this.words := words;
      this.mistakes := mistakes;
      this.isAdmin := isAdmin;
      view := SelectionView;
      activeModule := "";
      quizWords := [];
      currentIndex := 0;
      userInput := "";
      isAnswered := false;
      isCorrect := false;
    }

    /** The module cards shown in the selection view. */
    function Modules(): (r: seq<string>)
      reads this
      ensures NoDuplicates(r)
      ensures forall j :: 0 <= j < |words| ==> words[j].moduleName in r
    {
      WordModules(words)
    }

    /** Clears the input and both flags of the turn. */
    method ResetTurn()
      modifies this
      ensures userInput == "" && !isAnswered && !isCorrect
      ensures words == old(words) && mistakes == old(mistakes) && view == old(view)
      ensures activeModule == old(activeModule) && quizWords == old(quizWords)
      ensures currentIndex == old(currentIndex)
    {
      userInput := "";
      isAnswered := false;
      isCorrect := false;
    }

    /**
     * Starts a round over the local words of `moduleName`; `shuffled` is the order
     * the random sort produced, any permutation of those words.
     */
    method StartQuiz(moduleName: string, shuffled: seq<Word>)
      requires Valid()
      requires multiset(shuffled) == multiset(WordsOfModule(words, moduleName))
      modifies this
      ensures Valid()
      ensures quizWords == shuffled && currentIndex == 0
      ensures activeModule == moduleName && view == QuizView
      ensures userInput == "" && !isAnswered && !isCorrect
      ensures words == old(words) && mistakes == old(mistakes)
      ensures forall i :: 0 <= i < |quizWords| ==> quizWords[i] in words && quizWords[i].moduleName == moduleName
    {
      quizWords := shuffled;
      currentIndex := 0;
      activeModule := moduleName;
      view := QuizView;
      ResetTurn();
      forall i | 0 <= i < |quizWords| ensures quizWords[i] in words && quizWords[i].moduleName == moduleName {
        assert quizWords[i] in multiset(WordsOfModule(words, moduleName));
      }
    }

    /** The check button of an unanswered turn: checks the typed answer against the current word and records a mistake for a wrong answer. */
    method HandleCheck(now: nat, nowIso: string)
      requires Valid() && currentIndex < |quizWords| && !isAnswered
      modifies this
      ensures Valid()
      ensures words == old(words) && view == old(view) && activeModule == old(activeModule)
      ensures quizWords == old(quizWords) && currentIndex == old(currentIndex) && userInput == old(userInput)
      ensures isAnswered
      ensures isCorrect == AnswerCorrect(userInput, quizWords[currentIndex].english)
      ensures mistakes == if isCorrect then old(mistakes)
                          else RecordMistake(old(mistakes), quizWords[currentIndex], NatToDecimal(now), DateOf(nowIso))
      ensures !isCorrect ==> HasMistakeFor(mistakes, quizWords[currentIndex].id)
      ensures old(UniqueWordIds(mistakes)) ==> UniqueWordIds(mistakes)
    {
      var current := quizWords[currentIndex];
      var correct := AnswerCorrect(userInput, current.english);
      isCorrect := correct;
      isAnswered := true;
      if !correct {
        if UniqueWordIds(mistakes) {
          RecordMistakeKeepsUnique(mistakes, current, NatToDecimal(now), DateOf(nowIso));
        }
        mistakes := RecordMistake(mistakes, current, NatToDecimal(now), DateOf(nowIso));
      }
    }

    /** The Enter key in the answer box: checks only a turn not answered yet. */
    method PressEnter(now: nat, nowIso: string)
      requires Valid() && view == QuizView && currentIndex < |quizWords|
      modifies this
      ensures Valid()
      ensures words == old(words) && view == old(view) && activeModule == old(activeModule)
      ensures quizWords == old(quizWords) && currentIndex == old(currentIndex) && userInput == old(userInput)
      ensures old(isAnswered) ==> words == old(words) && mistakes == old(mistakes) && isCorrect == old(isCorrect)
      ensures isAnswered
      ensures !old(isAnswered) ==>
        isCorrect == AnswerCorrect(userInput, quizWords[currentIndex].english) &&
        mistakes == if isCorrect then old(mistakes)
                    else RecordMistake(old(mistakes), quizWords[currentIndex], NatToDecimal(now), DateOf(nowIso))
    {
      if !isAnswered {
        HandleCheck(now, nowIso);
      }
    }

    /** Typing in the answer box; the box is disabled once the turn is answered. */
    method TypeAnswer(text: string)
      modifies this
      ensures userInput == if old(isAnswered) then old(userInput) else text
      ensures words == old(words) && mistakes == old(mistakes) && view == old(view)
      ensures activeModule == old(activeModule) && quizWords == old(quizWords)
      ensures currentIndex == old(currentIndex) && isAnswered == old(isAnswered) && isCorrect == old(isCorrect)
    {
      if !isAnswered {
        userInput := text;
      }
    }

    /** Moves to the next word, or back to the selection view after the last one. */
    method NextWord()
      requires Valid()
      modifies this
      ensures Valid()
      ensures old(currentIndex) < |quizWords| - 1 ==>
        currentIndex == old(currentIndex) + 1 && view == old(view) &&
        userInput == "" && !isAnswered && !isCorrect
      ensures !(old(currentIndex) < |quizWords| - 1) ==>
        currentIndex == old(currentIndex) && view == SelectionView &&
        userInput == old(userInput) && isAnswered == old(isAnswered) && isCorrect == old(isCorrect)
      ensures words == old(words) && mistakes == old(mistakes)
      ensures activeModule == old(activeModule) && quizWords == old(quizWords)
    {
      if currentIndex < |quizWords| - 1 {
        currentIndex := currentIndex + 1;
        ResetTurn();
      } else {
        view := SelectionView;
      }
    }

    /** Deletes a record from the mistake book, locally and unconditionally. */
    method RemoveMistake(id: string)
      modifies this`mistakes
      ensures mistakes == MistakesWithout(old(mistakes), id)
      ensures old(UniqueWordIds(mistakes)) ==> UniqueWordIds(mistakes)
    {
      if UniqueWordIds(mistakes) {
        RemoveMistakeKeepsUnique(mistakes, id);
      }
      mistakes := MistakesWithout(mistakes, id);
    }

    /** Deletes a word from the word list in the admin view, locally only. */
    method DeleteWord(id: string)
      requires view == AdminView && isAdmin
      modifies this`words
      ensures words == WordsWithout(old(words), id)
    {
      words := WordsWithout(words, id);
    }

    /** The view buttons: selection and mistake book for everyone, word administration for administrators. */
    method SelectView(v: View)
      requires Valid()
      requires v != QuizView && (v == AdminView ==> isAdmin)
      modifies this`view
      ensures Valid() && view == v
    {
      view := v;
    }
  }
}
