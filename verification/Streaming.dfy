/** Cutting an answer into chunks for the event stream (backend/app/api/openai_compat.py). */
module Streaming {
  import opened Prelude
  import opened Strings

  const CHUNK_LENGTH := 10

  function Extend(current: string, word: string): string {
    current + (if current != "" then " " else "") + word
  }

  /** What the loop still appends, from the remaining words and the chunk in progress. */
  function Pack(words: seq<string>, current: string): seq<string>
    decreases |words|
  {
    if words == [] then (if current != "" then [current] else [])
    else
      var next := Extend(current, words[0]);
      if |next| >= CHUNK_LENGTH then [next] + Pack(words[1..], "") else Pack(words[1..], next)
  }

  function Chunks(answer: string): seq<string> {
    var packed := Pack(Split(answer, ' '), "");
    if packed == [] then [answer] else packed
  }

  method StreamChunks(answer: string) returns (chunks: seq<string>)
    ensures chunks == Chunks(answer)
  {
    var words := Split(answer, ' ');
    chunks := [];
    var current := "";
    for i := 0 to |words|
      invariant chunks + Pack(words[i..], current) == Pack(words, "")
    {
      assert words[i..][0] == words[i] && words[i..][1..] == words[i + 1..];
      current := Extend(current, words[i]);
      if |current| >= CHUNK_LENGTH {
        Assoc(chunks, [current], Pack(words[i + 1..], ""));
        chunks := chunks + [current];
        current := "";
      }
    }
    if current != "" { chunks := chunks + [current]; }
    Unit(chunks);
    if chunks == [] { chunks := [answer]; }
  }

  // ---------------------------------------------------------------- what the chunks keep

  /** The text the remaining words stand for. */
  function Pending(words: seq<string>, current: string): string {
    if current == "" then Join(words, " ") else if words == [] then current else current + " " + Join(words, " ")
  }

  /** Empty words that arrive while no chunk is in progress: each loses its space. */
  function Lost(words: seq<string>, current: string): nat
    decreases |words|
  {
    if words == [] then 0
    else
      var next := Extend(current, words[0]);
      (if next == "" then 1 else 0) + Lost(words[1..], if |next| >= CHUNK_LENGTH then "" else next)
  }

  lemma PendingStep(words: seq<string>, current: string)
    requires words != []
    ensures var next := Extend(current, words[0]);
            if next != "" then Pending(words, current) ==
                (if words[1..] == [] then next else next + " " + Join(words[1..], " "))
            else Pending(words, current) == (if words[1..] == [] then "" else " " + Join(words[1..], " "))
  {
    HeadTail(words);
    JoinCons(words[0], words[1..], " ");
    if current != "" && words[1..] != [] {
      var rest := Join(words[1..], " ");
      Assoc(current + " ", words[0], " " + rest);
      Assoc(words[0], " ", rest);
      Assoc(current + " " + words[0], " ", rest);
    }
  }

  lemma JoinChunk(next: string, packed: seq<string>)
    ensures Join([next] + packed, " ") == if packed == [] then next else next + " " + Join(packed, " ")
  {
    JoinCons(next, packed, " ");
  }

  ghost predicate AllEmpty(words: seq<string>) {
    forall w :: w in words ==> w == ""
  }

  lemma {:induction false} PackEmpty(words: seq<string>, current: string)
    ensures Pack(words, current) == [] <==> current == "" && AllEmpty(words)
    decreases |words|
  {
    if words != [] {
      var next := Extend(current, words[0]);
      PackEmpty(words[1..], if |next| >= CHUNK_LENGTH then "" else next);
      assert words[0] in words && forall w :: w in words ==> w == words[0] || w in words[1..];
      assert forall w :: w in words[1..] ==> w in words;
    }
  }

  /** Joined with single spaces the chunks are the text less one space per lost word. */
  lemma {:induction false} PackJoins(words: seq<string>, current: string)
    requires Pack(words, current) != []
    ensures |Join(Pack(words, current), " ")| + Lost(words, current) == |Pending(words, current)|
    ensures Lost(words, current) == 0 ==> Join(Pack(words, current), " ") == Pending(words, current)
    decreases |words|
  {
    if words != [] {
      var next, tail := Extend(current, words[0]), words[1..];
      PendingStep(words, current);
      if |next| >= CHUNK_LENGTH {
        JoinChunk(next, Pack(tail, ""));
        if Pack(tail, "") != [] {
          PackJoins(tail, "");
          PackEmpty(tail, "");
        } else {
          PackEmpty(tail, "");
          AllEmptyLost(tail);
        }
      } else {
        PackJoins(tail, next);
        PackEmpty(tail, next);
      }
    }
  }

  lemma {:induction false} AllEmptyLost(words: seq<string>)
    requires AllEmpty(words)
    ensures Lost(words, "") == |words|
    ensures words != [] ==> |Join(words, " ")| == |words| - 1
    decreases |words|
  {
    if words != [] {
      assert words[0] in words && forall w :: w in words[1..] ==> w in words;
      AllEmptyLost(words[1..]);
      HeadTail(words);
      JoinCons(words[0], words[1..], " ");
    }
  }

  ghost predicate OnlySpaces(s: string) {
    forall i :: 0 <= i < |s| ==> s[i] == ' '
  }

  lemma AllEmptyCons(w: string, words: seq<string>)
    ensures AllEmpty([w] + words) <==> w == "" && AllEmpty(words)
  {
    assert w in [w] + words && forall x :: x in words ==> x in [w] + words;
  }

  lemma OnlySpacesTail(s: string)
    requires s != ""
    ensures OnlySpaces(s) <==> s[0] == ' ' && OnlySpaces(s[1..])
  {
    if s[0] == ' ' && OnlySpaces(s[1..]) {
      forall i | 0 <= i < |s| ensures s[i] == ' ' { assert i == 0 || s[i] == s[1..][i - 1]; }
    }
    if OnlySpaces(s) {
      forall i | 0 <= i < |s[1..]| ensures s[1..][i] == ' ' { assert s[1..][i] == s[i + 1]; }
    }
  }

  lemma {:induction false} OnlySpacesWords(s: string)
    ensures OnlySpaces(s) <==> AllEmpty(Split(s, ' '))
  {
    if s != "" {
      var tail := Split(s[1..], ' ');
      OnlySpacesTail(s);
      OnlySpacesWords(s[1..]);
      if s[0] == ' ' {
        AllEmptyCons("", tail);
      } else {
        AllEmptyCons([s[0]] + tail[0], tail[1..]);
      }
      hide OnlySpaces, AllEmpty;
    }
  }

  /**
   Joining the chunks with single spaces gives the answer back exactly when no empty word arrives
   between chunks, or the answer is only spaces (and is sent whole).
   */
  lemma RejoinsExactly(answer: string)
    ensures Join(Chunks(answer), " ") == answer <==> OnlySpaces(answer) || Lost(Split(answer, ' '), "") == 0
  {
    JoinSplit(answer, ' ');
    var words := Split(answer, ' ');
    OnlySpacesWords(answer);
    PackEmpty(words, "");
    hide OnlySpaces;
    if Pack(words, "") != [] { PackJoins(words, ""); }
  }

  /** It can fail: a leading space is lost. */
  lemma LeadingSpaceIsLost()
    ensures Chunks(" a") == ["a"] && Join(Chunks(" a"), " ") != " a"
  {
    assert " a" == "" + [' '] + "a";
    SplitFirst("", "a", ' ');
    SplitAtom("a", ' ');
    assert Split(" a", ' ') == ["", "a"] && ["", "a"][1..] == ["a"] && ["a"][1..] == [];
    assert Extend("", "") == "" && Extend("", "a") == "a";
    assert Pack(["a"], "") == Pack([], "a") && Pack(["", "a"], "") == Pack(["a"], "");
  }

  lemma {:induction false} NoEmptyNoLoss(words: seq<string>, current: string)
    requires forall w :: w in words ==> w != ""
    ensures Lost(words, current) == 0
    decreases |words|
  {
    if words != [] {
      assert words[0] in words && forall w :: w in words[1..] ==> w in words;
      var next := Extend(current, words[0]);
      NoEmptyNoLoss(words[1..], if |next| >= CHUNK_LENGTH then "" else next);
    }
  }

  /** In particular an answer without leading, trailing or doubled spaces is recovered. */
  lemma TidyAnswerRejoins(answer: string)
    requires forall w :: w in Split(answer, ' ') ==> w != ""
    ensures Join(Chunks(answer), " ") == answer
  {
    NoEmptyNoLoss(Split(answer, ' '), "");
    RejoinsExactly(answer);
  }

  lemma {:induction false} FlattenShorter(parts: seq<string>)
    requires parts != []
    ensures |Join(parts, " ")| == |Flatten(parts)| + |parts| - 1
    decreases |parts|
  {
    if |parts| > 1 { FlattenShorter(parts[1..]); }
  }

  /** No space from the minimal chunk length on. */
  ghost predicate NoLateSpace(s: string) {
    forall i :: 10 <= i < |s| ==> s[i] != ' '
  }

  lemma PackedIsNoLonger(words: seq<string>, current: string)
    ensures |Flatten(Pack(words, current))| <= |Pending(words, current)|
  {
    hide Pack;
    PackEmpty(words, current);
    if Pack(words, current) != [] {
      PackJoins(words, current);
      FlattenShorter(Pack(words, current));
    }
  }

  /** A chunk that is cut off before the last word loses the space after it. */
  lemma CutLosesSpace(next: string, tail: seq<string>)
    requires |next| >= CHUNK_LENGTH && tail != []
    ensures !NoLateSpace(next + " " + Join(tail, " "))
    ensures Flatten([next] + Pack(tail, "")) != next + " " + Join(tail, " ")
  {
    hide Pack, Join;
    PackedIsNoLonger(tail, "");
    ConcatTail([next], Pack(tail, ""));
    Unit(Pack(tail, ""));
    var all := next + " " + Join(tail, " ");
    assert all[|next|] == ' ';
    assert Flatten([next] + Pack(tail, "")) == next + Flatten(Pack(tail, ""));
  }

  lemma FlattenOne(s: string)
    ensures Flatten([s]) == s
  {
    assert Flatten([s]) == s + Flatten([s][1..]);
  }

  lemma ExtendedEarly(current: string, word: string)
    requires |current| < CHUNK_LENGTH && ' ' !in word
    ensures NoLateSpace(Extend(current, word))
  {
    var next := Extend(current, word);
    forall i | CHUNK_LENGTH <= i < |next| ensures next[i] != ' ' {
      assert next[i] == word[i - (|next| - |word|)];
    }
  }

  /** From a chunk in progress on, concatenation is exact when the rest fits in it. */
  lemma {:induction false} PackConcatenates(words: seq<string>, current: string)
    requires current != "" && |current| < CHUNK_LENGTH && forall w :: w in words ==> ' ' !in w
    ensures Flatten(Pack(words, current)) == Pending(words, current) <==> NoLateSpace(Pending(words, current))
    decreases |words|
  {
    if words == [] {
      FlattenOne(current);
    } else {
      assert words[0] in words && forall w :: w in words[1..] ==> w in words;
      PackAfter(words, current);
    }
  }

  /** The same one word later, also when no chunk is in progress and the word is not empty. */
  lemma {:induction false} PackAfter(words: seq<string>, current: string)
    requires words != [] && Extend(current, words[0]) != "" && |current| < CHUNK_LENGTH
    requires forall w :: w in words ==> ' ' !in w
    ensures Flatten(Pack(words, current)) == Pending(words, current) <==> NoLateSpace(Pending(words, current))
    decreases |words|, 0
  {
    var next, tail := Extend(current, words[0]), words[1..];
    assert words[0] in words && forall w :: w in tail ==> w in words;
    PendingStep(words, current);
    if |next| < CHUNK_LENGTH {
      PackConcatenates(tail, next);
    } else if tail == [] {
      FlattenOne(next);
      ExtendedEarly(current, words[0]);
    } else {
      CutLosesSpace(next, tail);
    }
  }

  /**
   Plain concatenation gives the answer back exactly when the answer is only spaces, or it does not
   begin with a space and has none from the tenth character on.
   */
  lemma ConcatenatesExactly(answer: string)
    ensures Flatten(Chunks(answer)) == answer <==>
              OnlySpaces(answer) || (answer[0] != ' ' && NoLateSpace(answer))
  {
    var words := Split(answer, ' ');
    JoinSplit(answer, ' ');
    SplitPieces(answer, ' ');
    OnlySpacesWords(answer);
    PackEmpty(words, "");
    if OnlySpaces(answer) {
      FlattenOne(answer);
    } else {
      FirstWord(answer);
      if answer[0] != ' ' { PackAfter(words, ""); } else { LeadingLost(words); }
    }
  }

  lemma FirstWord(s: string)
    requires s != ""
    ensures Split(s, ' ')[0] == "" <==> s[0] == ' '
  {
  }

  lemma LeadingLost(words: seq<string>)
    requires |words| > 1 && words[0] == ""
    ensures |Flatten(Pack(words, ""))| < |Join(words, " ")|
  {
    PackedIsNoLonger(words[1..], "");
    assert Pack(words, "") == Pack(words[1..], "");
    HeadTail(words);
    JoinCons(words[0], words[1..], " ");
  }

  /** It can fail: the space between two chunks is gone. */
  lemma BoundarySpaceIsLost()
    ensures Flatten(Chunks("abcdefghij k")) != "abcdefghij k"
  {
    assert "abcdefghij k"[10] == ' ';
    ConcatenatesExactly("abcdefghij k");
  }

  /** The characters other than spaces survive in order. */
  lemma {:induction false} PackKeepsText(words: seq<string>, current: string)
    ensures Remove(Flatten(Pack(words, current)), ' ') == Remove(current, ' ') + Remove(Flatten(words), ' ')
    decreases |words|
  {
    if words == [] {
      Unit(Remove(current, ' '));
      if current != "" { Unit(current); assert Flatten([current]) == current + Flatten([current][1..]); }
    } else {
      var next, tail := Extend(current, words[0]), words[1..];
      RemoveConcat(current + (if current != "" then " " else ""), words[0], ' ');
      RemoveConcat(current, if current != "" then " " else "", ' ');
      Unit(Remove(current, ' '));
      assert Remove(" ", ' ') == "";
      RemoveConcat(words[0], Flatten(tail), ' ');
      Assoc(Remove(current, ' '), Remove(words[0], ' '), Remove(Flatten(tail), ' '));
      if |next| >= CHUNK_LENGTH {
        PackKeepsText(tail, "");
        ConcatTail([next], Pack(tail, ""));
        RemoveConcat(next, Flatten(Pack(tail, "")), ' ');
        Unit(Remove(Flatten(tail), ' '));
      } else {
        PackKeepsText(tail, next);
      }
    }
  }

  lemma {:induction false} SplitText(s: string)
    ensures Remove(Flatten(Split(s, ' ')), ' ') == Remove(s, ' ')
  {
    if s != "" {
      SplitText(s[1..]);
      var tail := Split(s[1..], ' ');
      if s[0] == ' ' {
        ConcatTail([""], tail);
        Unit(Flatten(tail));
        Unit(Remove(s[1..], ' '));
      } else {
        ConcatTail([[s[0]] + tail[0]], tail[1..]);
        Assoc([s[0]], tail[0], Flatten(tail[1..]));
        RemoveConcat([s[0]], tail[0] + Flatten(tail[1..]), ' ');
      }
    }
  }

  lemma ChunksKeepText(answer: string)
    ensures Remove(Flatten(Chunks(answer)), ' ') == Remove(answer, ' ')
  {
    var words := Split(answer, ' ');
    SplitText(answer);
    PackKeepsText(words, "");
    Unit(Remove(Flatten(words), ' '));
    if Pack(words, "") == [] { assert Flatten([answer]) == answer + Flatten([answer][1..]); Unit(answer); }
  }

  /** Every chunk but the last is long enough. */
  lemma {:induction false} PackLengths(words: seq<string>, current: string)
    ensures forall i :: 0 <= i < |Pack(words, current)| - 1 ==> |Pack(words, current)[i]| >= CHUNK_LENGTH
    decreases |words|
  {
    if words != [] {
      var next := Extend(current, words[0]);
      PackLengths(words[1..], if |next| >= CHUNK_LENGTH then "" else next);
    }
  }

  lemma ChunkLengths(answer: string)
    ensures forall i :: 0 <= i < |Chunks(answer)| - 1 ==> |Chunks(answer)[i]| >= 10
  {
    PackLengths(Split(answer, ' '), "");
  }
}
