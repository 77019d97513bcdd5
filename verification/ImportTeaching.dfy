/** Answering the questions about a file (apps/web/lib/sources/use-import-flow.ts): the unknown words of a document, one word
    at a time, and question after question. */
module ImportTeaching {
  import opened Basics
  import opened MappingDecision
  import opened Answers
  import opened ImportFlow

  // ---------------------------------------------------------------------------------------------
  // Words, some of which may be asked about more than once
  // ---------------------------------------------------------------------------------------------

  function Without(words: seq<string>, word: string): (r: seq<string>)
    ensures |r| <= |words|
    ensures forall w :: w in r <==> w in words && w != word
  {
    if words == [] then []
    else (if words[0] == word then [] else [words[0]]) + Without(words[1..], word)
  }

  /** Each word once, where it first comes. */
  function Different(words: seq<string>): (r: seq<string>)
    ensures |r| <= |words|
    ensures forall w :: w in r <==> w in words
    decreases |words|
  {
    if words == [] then [] else [words[0]] + Different(Without(words[1..], words[0]))
  }

  predicate Distinct(words: seq<string>) {
    forall i, j :: 0 <= i < j < |words| ==> words[i] != words[j]
  }

  lemma {:induction false} DifferentAreDistinct(words: seq<string>)
    ensures Distinct(Different(words))
    decreases |words|
  {
    if words != [] {
      var rest := Different(Without(words[1..], words[0]));
      DifferentAreDistinct(Without(words[1..], words[0]));
      forall i | 0 <= i < |rest| ensures rest[i] != words[0] {
        assert rest[i] in rest;
      }
    }
  }

  /** How often a word comes. */
  function Count(words: seq<string>, word: string): nat {
    if words == [] then 0 else (if words[0] == word then 1 else 0) + Count(words[1..], word)
  }

  lemma {:induction false} CountWithout(words: seq<string>, word: string, other: string)
    ensures Count(Without(words, word), other) == if other == word then 0 else Count(words, other)
    decreases |words|
  {
    if words != [] {
      CountWithout(words[1..], word, other);
      if words[0] != word {
        assert ([words[0]] + Without(words[1..], word))[1..] == Without(words[1..], word);
      } else {
        assert [] + Without(words[1..], word) == Without(words[1..], word);
      }
    }
  }

  lemma {:induction false} CountOfOne(words: seq<string>, word: string)
    requires forall i :: 0 <= i < |words| ==> words[i] == word
    ensures Count(words, word) == |words|
    decreases |words|
  {
    if words != [] {
      CountOfOne(words[1..], word);
    }
  }

  lemma WithoutTheFirst(words: seq<string>)
    requires words != []
    ensures Without(words, words[0]) == Without(words[1..], words[0])
    ensures Different(Without(words, words[0])) == Different(words)[1..]
  {
    assert [] + Without(words[1..], words[0]) == Without(words[1..], words[0]);
  }

  // ---------------------------------------------------------------------------------------------
  // Teaching
  // ---------------------------------------------------------------------------------------------

  function TeachAll(m: Machine, meanings: seq<string>): Machine {
    if meanings == [] then m else Teach(TeachAll(m, meanings[..|meanings| - 1]), meanings[|meanings| - 1])
  }

  function Learned(taught: Words, words: seq<string>, meanings: seq<string>): Words
    requires |words| == |meanings|
  {
    if words == [] then taught
    else
      var last := |words| - 1;
      Learned(taught, words[..last], meanings[..last])[words[last] := meanings[last]]
  }

  predicate AsksForWords(m: Machine) {
    m.step.Ask? && m.step.question.valueLabels
  }

  /** The question names the document in which its answers are kept. */
  predicate KeepsWords(m: Machine) {
    AsksForWords(m) && m.step.question.document.Some?
  }

  /** The labels of the question still to be taught. */
  function Left(m: Machine): seq<string>
    requires m.step.Ask?
  {
    StillUntaught(m.step.question.labels, m.step.taught)
  }

  lemma {:induction false} LeftWithout(labels: seq<string>, taught: Words, word: string, meaning: string)
    ensures StillUntaught(labels, taught[word := meaning]) == Without(StillUntaught(labels, taught), word)
    decreases |labels|
  {
    if labels != [] {
      LeftWithout(labels[1..], taught, word, meaning);
      var rest := StillUntaught(labels[1..], taught);
      assert ([labels[0]] + rest)[1..] == rest;
      assert [] + rest == rest && [] + Without(rest, word) == Without(rest, word);
    }
  }

  /** One answer teaches the first of the words left, wherever it comes. */
  lemma TaughtOne(m: Machine, meaning: string)
    requires AsksForWords(m) && |Left(m)| > 1
    ensures var after := Teach(m, meaning);
            && after == m.(step := m.step.(taught := m.step.taught[Left(m)[0] := meaning]))
            && Left(after) == Without(Left(m), Left(m)[0])
  {
    LeftWithout(m.step.question.labels, m.step.taught, Left(m)[0], meaning);
  }

  /** The word at this place is neither taught yet nor a name that every plain object answers to. */
  predicate StillAsked(m: Machine, k: nat)
    requires m.step.Ask?
  {
    k < |m.step.question.labels| && m.step.question.labels[k] !in m.step.taught && !IsInherited(m.step.question.labels[k])
  }

  lemma {:induction false} FirstLeft(labels: seq<string>, taught: Words, k: nat)
    requires k < |labels| && !InObject(taught, labels[k]) && forall j :: 0 <= j < k ==> InObject(taught, labels[j])
    ensures StillUntaught(labels, taught) == [labels[k]] + StillUntaught(labels[k + 1..], taught)
    decreases k
  {
    if k > 0 {
      FirstLeft(labels[1..], taught, k - 1);
      assert labels[1..][k..] == labels[k + 1..];
    }
  }

  lemma NoneLeft(labels: seq<string>, taught: Words)
    ensures StillUntaught(labels, taught) == [] <==> forall j :: 0 <= j < |labels| ==> InObject(taught, labels[j])
  {
    if forall j :: 0 <= j < |labels| ==> InObject(taught, labels[j]) {
      if StillUntaught(labels, taught) != [] {
        assert StillUntaught(labels, taught)[0] in labels;
      }
    } else {
      var j :| 0 <= j < |labels| && !InObject(taught, labels[j]);
      assert labels[j] in StillUntaught(labels, taught);
    }
  }

  lemma NothingIsLeft(m: Machine)
    requires m.step.Ask?
    ensures Left(m) == [] <==> forall j: nat :: !StillAsked(m, j)
  {
    var labels, taught := m.step.question.labels, m.step.taught;
    NoneLeft(labels, taught);
    forall j: nat | j < |labels| ensures StillAsked(m, j) <==> !InObject(taught, labels[j]) {
    }
    hide InObject;
    hide StillUntaught;
  }

  lemma FirstIsLeft(m: Machine, k: nat)
    requires m.step.Ask? && StillAsked(m, k) && forall j: nat :: j < k ==> !StillAsked(m, j)
    ensures Left(m) != [] && Left(m)[0] == m.step.question.labels[k]
    ensures |Left(m)| > 1 <==> exists j: nat :: j > k && StillAsked(m, j)
  {
    var labels, taught := m.step.question.labels, m.step.taught;
    var rest := labels[k + 1..];
    forall j: nat | j < |labels| ensures StillAsked(m, j) <==> !InObject(taught, labels[j]) {
    }
    hide InObject;
    FirstLeft(labels, taught, k);
    NoneLeft(rest, taught);
    hide StillUntaught;
    if j: nat :| j > k && StillAsked(m, j) {
      assert j < |labels|;
      assert rest[j - k - 1] == labels[j];
    } else {
      forall i | 0 <= i < |rest| ensures InObject(taught, rest[i]) {
        assert rest[i] == labels[i + k + 1] && !StillAsked(m, i + k + 1);
      }
    }
  }

  /** One answer teaches the first word still asked about; while another comes after it nothing is sent. The last one sends
      the file with everything taught, if the question names a document. With no word asked about an answer does nothing. */
  lemma WhatTeachingDoes(m: Machine, meaning: string, k: nat)
    requires AsksForWords(m)
    ensures (forall j: nat :: !StillAsked(m, j)) ==> Teach(m, meaning) == m
    ensures StillAsked(m, k) && (forall j: nat :: j < k ==> !StillAsked(m, j)) ==>
              var after, taught := Teach(m, meaning), m.step.taught[m.step.question.labels[k] := meaning];
              if exists j: nat :: j > k && StillAsked(m, j) then after == m.(step := m.step.(taught := taught))
              else if m.step.question.document.None? then after == m
              else
                var said := NOTHING_SAID.(labels := map[m.step.question.document.value := taught]);
                && after.step == Checking(m.step.file) && after.log == m.log && after.token == m.token
                && after.pending == m.pending[m.nextRequest := UnderstandRequest(m.step.file, Merge(m.step.answers, said), m.step.confirmedDomain)]
  {
    hide Merge;
    hide StillUntaught;
    NothingIsLeft(m);
    if StillAsked(m, k) && (forall j: nat :: j < k ==> !StillAsked(m, j)) {
      FirstIsLeft(m, k);
    }
    hide StillAsked;
  }

  /** Which words are left, and what the answers so far have taught. */
  ghost predicate TaughtSoFar(m: Machine, meanings: seq<string>, after: Machine)
    requires AsksForWords(m) && |meanings| <= |Different(Left(m))|
  {
    && after == m.(step := m.step.(taught := Learned(m.step.taught, Different(Left(m))[..|meanings|], meanings)))
    && Different(Left(after)) == Different(Left(m))[|meanings|..]
    && forall k :: |meanings| <= k < |Different(Left(m))| ==>
         Count(Left(after), Different(Left(m))[k]) == Count(Left(m), Different(Left(m))[k])
  }

  lemma {:induction false} AnswersTeach(m: Machine, meanings: seq<string>)
    requires AsksForWords(m) && |meanings| < |Different(Left(m))|
    ensures TaughtSoFar(m, meanings, TeachAll(m, meanings))
    decreases |meanings|
  {
    var words := Different(Left(m));
    if meanings == [] {
      assert words[..0] == [] && words[0..] == words;
    } else {
      var k := |meanings| - 1;
      AnswersTeach(m, meanings[..k]);
      OneMoreTaught(m, meanings, TeachAll(m, meanings[..k]));
    }
  }

  lemma OneMoreTaught(m: Machine, meanings: seq<string>, before: Machine)
    requires AsksForWords(m) && 0 < |meanings| < |Different(Left(m))| && TaughtSoFar(m, meanings[..|meanings| - 1], before)
    ensures TaughtSoFar(m, meanings, Teach(before, meanings[|meanings| - 1]))
  {
    var words := Different(Left(m));
    var k := |meanings| - 1;
    var left := Left(before);
    assert Different(left) == words[k..];
    MoreThanOneLeft(left, words, k);
    TaughtOne(before, meanings[k]);
    LearnedOneMore(m.step.taught, words, meanings);
    DifferentAreDistinct(Left(m));
    hide Different;
    hide Without;
    hide Count;
    hide StillUntaught;
    hide Learned;
    hide Teach;
    forall n | k + 1 <= n < |words| ensures Count(Without(left, left[0]), words[n]) == Count(Left(m), words[n]) {
      CountWithout(left, left[0], words[n]);
      assert words[k] != words[n] && Count(left, words[n]) == Count(Left(m), words[n]);
    }
  }

  /** When more than one word is left the first goes, and with it only itself. */
  lemma MoreThanOneLeft(left: seq<string>, words: seq<string>, k: nat)
    requires k + 1 < |words| && Different(left) == words[k..]
    ensures |left| > 1 && left[0] == words[k] && Different(Without(left, left[0])) == words[k + 1..]
  {
    assert left != [];
    WithoutTheFirst(left);
    assert words[k..][1..] == words[k + 1..];
    assert Different(left)[0] == left[0];
  }

  lemma LearnedOneMore(taught: Words, words: seq<string>, meanings: seq<string>)
    requires 0 < |meanings| <= |words|
    ensures var k := |meanings| - 1;
            Learned(taught, words[..k + 1], meanings) == Learned(taught, words[..k], meanings[..k])[words[k] := meanings[k]]
  {
    var k := |meanings| - 1;
    assert words[..k + 1][..k] == words[..k];
  }

  /** What teaching adds to the answers. */
  function TaughtPatch(m: Machine, meanings: seq<string>): UnderstandAnswers
    requires KeepsWords(m) && |meanings| == |Different(Left(m))|
  {
    NOTHING_SAID.(labels := map[m.step.question.document.value := Learned(m.step.taught, Different(Left(m)), meanings)])
  }

  /** The re-read with every word's meaning, sent from `m`. */
  function Reread(m: Machine, meanings: seq<string>): Machine
    requires KeepsWords(m) && |meanings| == |Different(Left(m))|
  {
    ReadFile(m, m.step.file, Merge(m.step.answers, TaughtPatch(m, meanings)), m.step.confirmedDomain)
  }

  /** The word that comes up last comes up once. */
  predicate LastComesOnce(words: seq<string>) {
    words != [] && Count(words, Different(words)[|Different(words)| - 1]) == 1
  }

  /** The question of `m` is still on screen with so many words left, and nothing has been sent. */
  ghost predicate AsksOn(m: Machine, after: Machine, left: nat)
    requires m.step.Ask?
  {
    && after.step.Ask? && after.step.question == m.step.question && |Different(Left(after))| == left
    && after.pending == m.pending && after.nextRequest == m.nextRequest && after.log == m.log
  }

  /** The question stays, with so many words left, and no further answer changes anything. */
  ghost predicate Waits(m: Machine, after: Machine, left: nat)
    requires m.step.Ask?
  {
    AsksOn(m, after, left) && forall meaning :: Teach(after, meaning) == after
  }

  lemma StillAsking(m: Machine, meanings: seq<string>, k: nat)
    requires AsksForWords(m) && k < |meanings| == |Different(Left(m))|
    ensures AsksOn(m, TeachAll(m, meanings[..k]), |meanings| - k)
  {
    AnswersTeach(m, meanings[..k]);
    hide TeachAll;
    hide Learned;
    hide Count;
  }

  /** A question about words takes as many answers as it has different words left, the words left going one by one and
      nothing being sent before the last answer. That one sends a re-read with every word's meaning exactly when the
      question names a document and the word that comes up last comes up once; otherwise nothing has been sent, and no
      further answer changes anything: a repeated word leaves none to ask about, a missing document always the last. */
  lemma OneAnswerPerWord(m: Machine, meanings: seq<string>)
    requires AsksForWords(m) && Left(m) != [] && |meanings| == |Different(Left(m))|
    ensures forall k :: 0 <= k < |meanings| ==> AsksOn(m, TeachAll(m, meanings[..k]), |meanings| - k)
    ensures KeepsWords(m) && LastComesOnce(Left(m)) ==> TeachAll(m, meanings) == Reread(m, meanings)
    ensures !(KeepsWords(m) && LastComesOnce(Left(m))) ==> Waits(m, TeachAll(m, meanings), if LastComesOnce(Left(m)) then 1 else 0)
  {
    assert Different(Left(m)) != [];
    hide Reread;
    hide LastComesOnce;
    hide Teach;
    hide TaughtSoFar;
    hide AsksOn;
    hide Different;
    hide StillUntaught;
    forall k | 0 <= k < |meanings| ensures AsksOn(m, TeachAll(m, meanings[..k]), |meanings| - k) {
      StillAsking(m, meanings, k);
    }
    var n := |meanings| - 1;
    AnswersTeach(m, meanings[..n]);
    hide Waits;
    if !LastComesOnce(Left(m)) {
      LastAnswerSendsNothing(m, meanings, TeachAll(m, meanings[..n]));
    } else if KeepsWords(m) {
      LastAnswerSends(m, meanings, TeachAll(m, meanings[..n]));
    } else {
      LastAnswerIsDropped(m, meanings, TeachAll(m, meanings[..n]));
    }
  }

  lemma LastLeft(m: Machine, meanings: seq<string>, before: Machine)
    requires AsksForWords(m) && Left(m) != [] && |meanings| == |Different(Left(m))|
    requires TaughtSoFar(m, meanings[..|meanings| - 1], before)
    ensures Left(before) != [] && Left(before)[0] == Different(Left(m))[|meanings| - 1] && Without(Left(before), Left(before)[0]) == []
    ensures |Left(before)| == 1 <==> LastComesOnce(Left(m))
  {
    var words, left := Different(Left(m)), Left(before);
    OneWordLeft(left, words);
    assert Count(left, words[|words| - 1]) == Count(Left(m), words[|words| - 1]);
  }

  lemma LastAnswerSends(m: Machine, meanings: seq<string>, before: Machine)
    requires KeepsWords(m) && Left(m) != [] && |meanings| == |Different(Left(m))|
    requires TaughtSoFar(m, meanings[..|meanings| - 1], before) && LastComesOnce(Left(m))
    ensures Teach(before, meanings[|meanings| - 1]) == Reread(m, meanings)
  {
    var words := Different(Left(m));
    LastLeft(m, meanings, before);
    LearnedOneMore(m.step.taught, words, meanings);
    assert words[..|meanings|] == words;
    hide Different;
    hide Learned;
    hide Without;
    hide Merge;
    hide StillUntaught;
    hide LastComesOnce;
  }

  lemma LastAnswerSendsNothing(m: Machine, meanings: seq<string>, before: Machine)
    requires AsksForWords(m) && Left(m) != [] && |meanings| == |Different(Left(m))|
    requires TaughtSoFar(m, meanings[..|meanings| - 1], before) && !LastComesOnce(Left(m))
    ensures Waits(m, Teach(before, meanings[|meanings| - 1]), 0)
  {
    LastLeft(m, meanings, before);
    TaughtOne(before, meanings[|meanings| - 1]);
    NothingLeft(Teach(before, meanings[|meanings| - 1]));
    hide Teach;
    hide Different;
    hide Learned;
    hide Without;
    hide StillUntaught;
    hide LastComesOnce;
  }

  lemma LastAnswerIsDropped(m: Machine, meanings: seq<string>, before: Machine)
    requires AsksForWords(m) && m.step.question.document.None? && Left(m) != [] && |meanings| == |Different(Left(m))|
    requires TaughtSoFar(m, meanings[..|meanings| - 1], before) && LastComesOnce(Left(m))
    ensures Teach(before, meanings[|meanings| - 1]) == before && Waits(m, before, 1)
  {
    LastLeft(m, meanings, before);
    hide Different;
    hide Learned;
    hide Without;
    hide Count;
    hide StillUntaught;
    hide LastComesOnce;
  }

  lemma OneWordLeft(left: seq<string>, words: seq<string>)
    requires words != [] && Different(left) == words[|words| - 1..]
    ensures |left| == Count(left, words[|words| - 1]) && left[0] == words[|words| - 1]
    ensures Without(left, left[0]) == []
  {
    var last := words[|words| - 1];
    assert Different(left) == [last];
    forall i | 0 <= i < |left| ensures left[i] == last {
      assert left[i] in Different(left);
    }
    CountOfOne(left, last);
    assert left != [];
    WithoutTheFirst(left);
    assert Different(Without(left, left[0])) == [];
  }

  lemma NothingLeft(m: Machine)
    requires AsksForWords(m) && Left(m) == []
    ensures |Different(Left(m))| == 0 && forall meaning :: Teach(m, meaning) == m
  {
  }

  lemma {:induction false} LearnedWords(taught: Words, words: seq<string>, meanings: seq<string>)
    requires |words| == |meanings| && Distinct(words)
    ensures forall i :: 0 <= i < |words| ==> words[i] in Learned(taught, words, meanings) && Learned(taught, words, meanings)[words[i]] == meanings[i]
    ensures Learned(taught, words, meanings).Keys == taught.Keys + set w | w in words
    decreases |words|
  {
    if words != [] {
      var last := |words| - 1;
      LearnedWords(taught, words[..last], meanings[..last]);
      assert words == words[..last] + [words[last]];
    }
  }

  /** What the re-read says of the words just asked: each has the meaning chosen for it. */
  lemma EveryWordGetsItsMeaning(m: Machine, meanings: seq<string>, i: nat)
    requires KeepsWords(m) && |meanings| == |Different(Left(m))| && i < |meanings|
    ensures SaysWord(Merge(m.step.answers, TaughtPatch(m, meanings)), m.step.question.document.value, Different(Left(m))[i], meanings[i])
  {
    var words := Different(Left(m));
    DifferentAreDistinct(Left(m));
    LearnedWords(m.step.taught, words, meanings);
    hide Different;
    hide Learned;
    hide StillUntaught;
    assert Speaks(TaughtPatch(m, meanings), m.step.question.document.value, words[i]);
    MergedWord(m.step.answers, TaughtPatch(m, meanings), m.step.question.document.value, words[i]);
  }

  /** The names that no question about words can ask about. */
  lemma WhichNamesAreInherited(word: string)
    ensures IsInherited(word)
       <==> word in {"constructor", "hasOwnProperty", "isPrototypeOf", "propertyIsEnumerable", "toLocaleString", "toString", "valueOf",
                     "__defineGetter__", "__defineSetter__", "__lookupGetter__", "__lookupSetter__", "__proto__"}
  {
  }

  /** Of a question just asked, every word is asked about, and gets a meaning in its document, exactly when none is a name
      that every plain object already answers to ("constructor", "toString"...); with no other word the dialog waits. */
  lemma EveryWordIsAskedUnlessInherited(m: Machine, meanings: seq<string>)
    requires AsksForWords(m) && m.step.taught == map[] && |meanings| == |Different(Left(m))|
    ensures (forall w :: w in m.step.question.labels ==> w in Different(Left(m)))
       <==> (forall w :: w in m.step.question.labels ==> !IsInherited(w))
    ensures KeepsWords(m) ==>
              forall w :: Speaks(TaughtPatch(m, meanings), m.step.question.document.value, w) <==> w in Different(Left(m))
    ensures Left(m) == [] ==> Waits(m, m, 0)
  {
    hide IsInherited;
    hide Distinct;
    hide Learned;
    DifferentAreDistinct(Left(m));
    LearnedWords(map[], Different(Left(m)), meanings);
    assert forall w :: w in Different(Left(m)) <==> w in m.step.question.labels && !IsInherited(w);
  }

  // ---------------------------------------------------------------------------------------------
  // Questions in a row
  // ---------------------------------------------------------------------------------------------

  /** What the person does at a question. */
  datatype Reply =
    | ByAnswer(patch: UnderstandAnswers, confirmedDomain: Option<bool>)
    | ByTeaching(meanings: seq<string>)
    | ByKind(kind: Domain)

  /** The person replies to the question on screen, and the backend reads the file again. */
  datatype Round = Round(reply: Reply, inspection: Inspection)

  function Replied(c: Config, m: Machine, reply: Reply): Machine {
    match reply
    case ByAnswer(patch, confirmedDomain) => AnswerQuestion(m, patch, confirmedDomain)
    case ByTeaching(meanings) => TeachAll(m, meanings)
    case ByKind(kind) => ChooseKind(c, m, kind)
  }

  function PlayRound(c: Config, m: Machine, round: Round): Machine {
    Land(c, Replied(c, m, round.reply), m.nextRequest, UnderstandAnswer(Ok(round.inspection)), false)
  }

  function Play(c: Config, m: Machine, rounds: seq<Round>): Machine {
    if rounds == [] then m else PlayRound(c, Play(c, m, rounds[..|rounds| - 1]), rounds[|rounds| - 1])
  }

  /** The reply ends the question: an answer does; teaching does with the last word, if that comes up once; naming the kind
      does when it is the one being imported. */
  predicate EndsTheQuestion(c: Config, m: Machine, reply: Reply) {
    m.step.Ask? &&
    match reply
    case ByAnswer(_, _) => true
    case ByTeaching(meanings) =>
      KeepsWords(m) && |meanings| == |Different(Left(m))| && LastComesOnce(Left(m))
    case ByKind(kind) => kind == c.domain
  }

  /** What the reply says of the file. */
  function PatchOf(c: Config, m: Machine, reply: Reply): UnderstandAnswers
    requires EndsTheQuestion(c, m, reply)
  {
    match reply
    case ByAnswer(patch, _) => patch
    case ByTeaching(meanings) => TaughtPatch(m, meanings)
    case ByKind(_) => NOTHING_SAID
  }

  /** Whether the kind of data is confirmed after the reply. */
  function Confirmed(m: Machine, reply: Reply): bool
    requires m.step.Ask?
  {
    match reply
    case ByAnswer(_, confirmedDomain) => confirmedDomain.GetOr(m.step.confirmedDomain)
    case ByTeaching(_) => m.step.confirmedDomain
    case ByKind(_) => true
  }

  /** Every reply ends its question and every re-read leads to another one. */
  predicate KeepsAsking(c: Config, m: Machine, rounds: seq<Round>) {
    && m.step.Ask?
    && (rounds != [] ==>
          && KeepsAsking(c, m, rounds[..|rounds| - 1])
          && EndsTheQuestion(c, Play(c, m, rounds[..|rounds| - 1]), rounds[|rounds| - 1].reply)
          && Play(c, m, rounds).step.Ask?)
  }

  function Patches(c: Config, m: Machine, rounds: seq<Round>): (r: seq<UnderstandAnswers>)
    requires KeepsAsking(c, m, rounds)
    ensures |r| == |rounds|
  {
    if rounds == [] then []
    else
      var front := rounds[..|rounds| - 1];
      Patches(c, m, front) + [PatchOf(c, Play(c, m, front), rounds[|rounds| - 1].reply)]
  }

  lemma MergeNothing(a: UnderstandAnswers)
    ensures Merge(a, NOTHING_SAID) == a
  {
    var none: map<string, Words> := map[];
    AddNothing(a.columnFields);
    KeysOfMerged(a.labels, none);
    hide MergedLabels;
    forall d ensures WordsOf(MergedLabels(a.labels, none), d) == WordsOf(a.labels, d) {
      WordsOfMerged(a.labels, none, d);
      AddNothing(WordsOf(a.labels, d));
    }
    SameLabels(MergedLabels(a.labels, none), a.labels);
  }

  /** A reply that ends the question sends the file to be read again with everything said so far. */
  lemma AReplySends(c: Config, m: Machine, reply: Reply)
    requires EndsTheQuestion(c, m, reply)
    ensures Replied(c, m, reply) == ReadFile(m, m.step.file, Merge(m.step.answers, PatchOf(c, m, reply)), Confirmed(m, reply))
  {
    hide Merge;
    hide TeachAll;
    hide Different;
    match reply
    case ByAnswer(_, _) =>
    case ByTeaching(meanings) => OneAnswerPerWord(m, meanings);
    case ByKind(_) => MergeNothing(m.step.answers);
  }

  lemma RereadKeepsTheAnswers(c: Config, m: Machine, file: File, answers: UnderstandAnswers, confirmed: bool, inspection: Inspection)
    requires var after := Land(c, ReadFile(m, file, answers, confirmed), m.nextRequest, UnderstandAnswer(Ok(inspection)), false);
             after.step.Ask?
    ensures var after := Land(c, ReadFile(m, file, answers, confirmed), m.nextRequest, UnderstandAnswer(Ok(inspection)), false);
            after.step.file == file && after.step.answers == answers && after.step.confirmedDomain == confirmed && after.step.taught == map[]
  {
    hide StartingDecision;
  }

  lemma OneRound(c: Config, m: Machine, round: Round)
    requires EndsTheQuestion(c, m, round.reply) && PlayRound(c, m, round).step.Ask?
    ensures var after := PlayRound(c, m, round);
            && after.step.file == m.step.file && after.step.answers == Merge(m.step.answers, PatchOf(c, m, round.reply))
            && after.step.confirmedDomain == Confirmed(m, round.reply)
  {
    AReplySends(c, m, round.reply);
    hide Replied;
    hide ReadFile;
    hide Land;
    hide PatchOf;
    hide Merge;
    var answers := Merge(m.step.answers, PatchOf(c, m, round.reply));
    RereadKeepsTheAnswers(c, m, m.step.file, answers, Confirmed(m, round.reply), round.inspection);
  }

  /** However many questions follow each other, answered, taught or about the kind, the answers kept are all those given,
      merged in order. */
  lemma {:induction false} AnswersAddUp(c: Config, m: Machine, rounds: seq<Round>)
    requires KeepsAsking(c, m, rounds)
    ensures Play(c, m, rounds).step.Ask? && Play(c, m, rounds).step.file == m.step.file
    ensures Play(c, m, rounds).step.answers == MergeAll(m.step.answers, Patches(c, m, rounds))
    decreases |rounds|
  {
    hide PlayRound;
    hide Merge;
    hide PatchOf;
    hide EndsTheQuestion;
    if rounds != [] {
      var front, last := rounds[..|rounds| - 1], rounds[|rounds| - 1];
      AnswersAddUp(c, m, front);
      OneRound(c, Play(c, m, front), last);
      assert Patches(c, m, rounds)[..|front|] == Patches(c, m, front);
    }
  }

  /** What the person said at some question, by answer or by teaching, is still said at every later one: a single answer
      stands until it is given anew, and so does the meaning of a column or a word. */
  lemma NoAnswerIsForgotten(c: Config, m: Machine, rounds: seq<Round>, k: nat)
    requires KeepsAsking(c, m, rounds) && k < |rounds|
    ensures Play(c, m, rounds).step.Ask?
    ensures var said, kept := Patches(c, m, rounds), Play(c, m, rounds).step.answers;
            && (forall s :: !SingleOf(said[k], s).Absent? && (forall j :: k < j < |rounds| ==> SingleOf(said[j], s).Absent?) ==>
                  SingleOf(kept, s) == SingleOf(said[k], s))
            && (forall h :: h in said[k].columnFields && (forall j :: k < j < |rounds| ==> h !in said[j].columnFields) ==>
                  h in kept.columnFields && kept.columnFields[h] == said[k].columnFields[h])
            && (forall d, w :: Speaks(said[k], d, w) && (forall j :: k < j < |rounds| ==> !Speaks(said[j], d, w)) ==>
                  SaysWord(kept, d, w, said[k].labels[d][w]))
  {
    AnswersAddUp(c, m, rounds);
    hide Play;
    hide MergeAll;
    hide Patches;
    NothingSaidIsLost(m.step.answers, Patches(c, m, rounds), k);
  }

  // ---------------------------------------------------------------------------------------------
  // Questions that are never left by teaching
  // ---------------------------------------------------------------------------------------------

  const STAFF := File(0, "staff.csv")
  const LABOR := Config(Labor, ImportMode)
  const MATCHED := Decision(Null, [], map[], Null, Null, Null, Null, Null)

  function About(words: seq<string>): Question {
    Question(true, Some("role_mapping"), words)
  }

  /** The backend has a proposal and one question, about these words. */
  function Asking(words: seq<string>): Inspection {
    Inspection(None, None, [], [], false, Profile(NoProfile, None), Some(Understanding(Level.Ask, [About(words)])), Some(MATCHED))
  }

  /** A file is chosen and read, the words are asked about, and these answers are given. */
  function AskedAbout(words: seq<string>, meanings: seq<string>): seq<Event> {
    if meanings == [] then [ChoosesFile(STAFF), Lands(0, UnderstandAnswer(Ok(Asking(words))), false)]
    else AskedAbout(words, meanings[..|meanings| - 1]) + [Teaches(meanings[|meanings| - 1])]
  }

  lemma RunOneMore(events: seq<Event>, e: Event)
    ensures Run(LABOR, START, events + [e]) == Next(LABOR, Run(LABOR, START, events), e)
  {
    hide Next;
    assert (events + [e])[..|events|] == events;
  }

  lemma {:induction false} TaughtInTheRun(words: seq<string>, meanings: seq<string>)
    ensures Run(LABOR, START, AskedAbout(words, meanings)) == TeachAll(Run(LABOR, START, AskedAbout(words, [])), meanings)
    decreases |meanings|
  {
    hide Run;
    hide Teach;
    if meanings != [] {
      TaughtInTheRun(words, meanings[..|meanings| - 1]);
      RunOneMore(AskedAbout(words, meanings[..|meanings| - 1]), Teaches(meanings[|meanings| - 1]));
    }
  }

  lemma StaffIsRead()
    ensures RightType(Labor, STAFF) && !IsInvoiceXml(STAFF)
  {
    assert STAFF.lowerName[|STAFF.lowerName| - 4..] == ".csv";
  }

  lemma TheQuestionIsAsked(words: seq<string>)
    ensures var m := Run(LABOR, START, AskedAbout(words, []));
            KeepsWords(m) && m.step.question == About(words) && m.step.taught == map[] && m.pending == map[]
  {
    StaffIsRead();
    hide RightType;
    hide IsInvoiceXml;
    var file, answer := ChoosesFile(STAFF), Lands(0, UnderstandAnswer(Ok(Asking(words))), false);
    assert Run(LABOR, START, []) == START;
    RunOneMore([], file);
    RunOneMore([file], answer);
    hide Run;
    NoneAndOne(file);
    OneAndOne(file, answer);
  }

  /** A question about the word "constructor" alone, in a run from the start, is never left by teaching. */
  lemma AnInheritedWordWaits(meaning: string)
    ensures var m := Run(LABOR, START, AskedAbout(["constructor"], []));
            AsksForWords(m) && Waits(m, m, 0) && Run(LABOR, START, AskedAbout(["constructor"], [meaning])) == m
  {
    hide Run;
    hide Teach;
    var m := Run(LABOR, START, AskedAbout(["constructor"], []));
    TheQuestionIsAsked(["constructor"]);
    assert Left(m) == [];
    EveryWordIsAskedUnlessInherited(m, []);
    TaughtInTheRun(["constructor"], [meaning]);
  }

  lemma TwiceIsNotOnce()
    ensures !LastComesOnce(["a", "a"]) && Different(["a", "a"]) == ["a"]
  {
    var words := ["a", "a"];
    assert words[1..] == ["a"] && words[1..][1..] == [];
  }

  /** A question with one word twice, in a run from the start: its one answer is taken, and nothing is ever sent. */
  lemma ARepeatedWordWaits(meaning: string)
    ensures var m, after := Run(LABOR, START, AskedAbout(["a", "a"], [])), Run(LABOR, START, AskedAbout(["a", "a"], [meaning]));
            AsksForWords(m) && Waits(m, after, 0) && after.step.taught == map["a" := meaning] && after.pending == map[]
  {
    hide Run;
    hide LastComesOnce;
    hide Merge;
    var m := Run(LABOR, START, AskedAbout(["a", "a"], []));
    var words := ["a", "a"];
    assert words[1..] == ["a"] && words[1..][1..] == [];
    assert !LastComesOnce(words) by { TwiceIsNotOnce(); }
    TheQuestionIsAsked(["a", "a"]);
    TaughtInTheRun(["a", "a"], [meaning]);
    OneAnswerPerWord(m, [meaning]);
  }
}
