/**
 * The data preparation of the model server: the filters that keep raw
 * examples, and the mixing of kept examples into training tasks. Downloading
 * and reading the gzip JSON-lines files are outside the model: each reader
 * is given the field values of the lines, in file order, and the samples
 * `random.sample` draws are given as index lists.
 */
module PrepareData {
  import opened Text

  /** One training example: `{"text": ..., "type": ...}`. */
  datatype Example = Example(text: string, kind: string)

  /** The number of occurrences of `c` in `s`. */
  function CountChar(s: string, c: char): nat
  {
    if s == [] then 0 else (if s[0] == c then 1 else 0) + CountChar(s[1..], c)
  }

  lemma {:induction false} CountCharAppend(a: string, b: string, c: char)
    ensures CountChar(a + b, c) == CountChar(a, c) + CountChar(b, c)
    decreases |a|
  {
    if a == [] {
      assert a + b == b;
    } else {
      assert (a + b)[0] == a[0];
      assert (a + b)[1..] == a[1..] + b;
      CountCharAppend(a[1..], b, c);
    }
  }

  lemma {:induction false} CountCharNone(s: string, c: char)
    requires forall i :: 0 <= i < |s| ==> s[i] != c
    ensures CountChar(s, c) == 0
    decreases |s|
  {
    if s != [] {
      CountCharNone(s[1..], c);
    }
  }

  lemma CountCharAbsent(s: string, c: char)
    requires !Contains(s, [c])
    ensures CountChar(s, c) == 0
  {
    forall i | 0 <= i < |s|
      ensures s[i] != c
    {
      CharOccurs(s, i);
      if s[i] == c {
        ContainsAt(s, [c], i);
      }
    }
    CountCharNone(s, c);
  }

  /** Splitting on a character gives one piece more than the character occurs. */
  lemma {:induction false} SplitCount(s: string, c: char)
    ensures |Split(s, [c])| == CountChar(s, c) + 1
    decreases |s|
  {
    match Find(s, [c])
    case None =>
      CountCharAbsent(s, c);
    case Some(i) =>
      var rest := s[i + 1..];
      SplitCount(rest, c);
      PrefixBeforeFirstFree(s, [c], i);
      CountCharAbsent(s[..i], c);
      assert s[i..i + 1] == [c];
      assert s == s[..i] + ([s[i]] + rest);
      CountCharAppend(s[..i], [s[i]] + rest, c);
      assert ([s[i]] + rest)[1..] == rest;
  }

  /** The line filter of `process_python_code`: more than five pieces on `"\n"`. */
  predicate LongCode(code: string)
  {
    |Split(code, "\n")| > 5
  }

  /** A code example is kept exactly when it has at least five line breaks. */
  lemma LongCodeIff(code: string)
    ensures LongCode(code) <==> CountChar(code, '\n') >= 5
  {
    SplitCount(code, '\n');
  }

  /** The examples `process_python_code` keeps from the `code` fields. */
  function CodeExamples(codes: seq<string>): (r: seq<Example>)
    ensures |r| <= |codes|
    ensures forall k :: 0 <= k < |r| ==> r[k].kind == "code" && LongCode(r[k].text) && r[k].text in codes
  {
    if codes == [] then []
    else
      var init := CodeExamples(codes[..|codes| - 1]);
      assert codes == codes[..|codes| - 1] + [Last(codes)];
      if LongCode(Last(codes)) then init + [Example(Last(codes), "code")] else init
  }

  method ProcessPythonCode(codes: seq<string>) returns (examples: seq<Example>)
    ensures examples == CodeExamples(codes)
  {
    examples := [];
    for i := 0 to |codes|
      invariant examples == CodeExamples(codes[..i])
    {
      assert codes[..i + 1][..i] == codes[..i];
      if |Split(codes[i], "\n")| > 5 {
        examples := examples + [Example(codes[i], "code")];
      }
    }
    assert codes[..|codes|] == codes;
  }

  /** The examples `process_documentation` keeps: documentation longer than 100 characters. */
  function DocExamples(docs: seq<string>): (r: seq<Example>)
    ensures |r| <= |docs|
    ensures forall k :: 0 <= k < |r| ==> r[k].kind == "documentation" && |r[k].text| > 100 && r[k].text in docs
  {
    if docs == [] then []
    else
      var init := DocExamples(docs[..|docs| - 1]);
      assert docs == docs[..|docs| - 1] + [Last(docs)];
      if |Last(docs)| > 100 then init + [Example(Last(docs), "documentation")] else init
  }

  method ProcessDocumentation(docs: seq<string>) returns (examples: seq<Example>)
    ensures examples == DocExamples(docs)
  {
    examples := [];
    for i := 0 to |docs|
      invariant examples == DocExamples(docs[..i])
    {
      assert docs[..i + 1][..i] == docs[..i];
      if |docs[i]| > 100 {
        examples := examples + [Example(docs[i], "documentation")];
      }
    }
    assert docs[..|docs|] == docs;
  }

  /** The text of a question and answer pair. */
  function QaText(question: string, answer: string): string
  {
    "Question: " + question + "\n\nAnswer: " + answer
  }

  /** The pairs both longer than 50 characters. */
  predicate KeptPair(pair: (string, string))
  {
    |pair.0| > 50 && |pair.1| > 50
  }

  /** The examples `process_stackoverflow` keeps from the question and answer fields. */
  function QaExamples(pairs: seq<(string, string)>): (r: seq<Example>)
    ensures |r| <= |pairs|
    ensures forall k :: 0 <= k < |r| ==> r[k].kind == "qa"
  {
    if pairs == [] then []
    else
      var init := QaExamples(pairs[..|pairs| - 1]);
      var pair := Last(pairs);
      if KeptPair(pair) then init + [Example(QaText(pair.0, pair.1), "qa")] else init
  }

  method ProcessStackOverflow(pairs: seq<(string, string)>) returns (examples: seq<Example>)
    ensures examples == QaExamples(pairs)
  {
    examples := [];
    for i := 0 to |pairs|
      invariant examples == QaExamples(pairs[..i])
    {
      assert pairs[..i + 1][..i] == pairs[..i];
      var (question, answer) := pairs[i];
      if |question| > 50 && |answer| > 50 {
        examples := examples + [Example(QaText(question, answer), "qa")];
      }
    }
    assert pairs[..|pairs|] == pairs;
  }

  /** A code example is kept exactly when it has more than five lines. */
  lemma {:induction false} CodeKeptIff(codes: seq<string>, x: string)
    ensures Example(x, "code") in CodeExamples(codes) <==> x in codes && LongCode(x)
  {
    if codes != [] {
      var init := codes[..|codes| - 1];
      CodeKeptIff(init, x);
      assert codes == init + [Last(codes)];
    }
  }

  /** A documentation example is kept exactly when it is longer than 100 characters. */
  lemma {:induction false} DocKeptIff(docs: seq<string>, x: string)
    ensures Example(x, "documentation") in DocExamples(docs) <==> x in docs && |x| > 100
  {
    if docs != [] {
      var init := docs[..|docs| - 1];
      DocKeptIff(init, x);
      assert docs == init + [Last(docs)];
    }
  }

  /** A pair is kept exactly when both sides are longer than 50, with the template as its text. */
  lemma {:induction false} QaKeptIff(pairs: seq<(string, string)>, pair: (string, string))
    ensures pair in pairs && KeptPair(pair) ==> Example(QaText(pair.0, pair.1), "qa") in QaExamples(pairs)
    ensures forall e :: e in QaExamples(pairs) ==>
      exists j :: 0 <= j < |pairs| && KeptPair(pairs[j]) && e == Example(QaText(pairs[j].0, pairs[j].1), "qa")
  {
    if pairs != [] {
      var init := pairs[..|pairs| - 1];
      QaKeptIff(init, pair);
      assert pairs == init + [Last(pairs)];
      forall e | e in QaExamples(pairs)
        ensures exists j :: 0 <= j < |pairs| && KeptPair(pairs[j]) && e == Example(QaText(pairs[j].0, pairs[j].1), "qa")
      {
        if e in QaExamples(init) {
          var j :| 0 <= j < |init| && KeptPair(init[j]) && e == Example(QaText(init[j].0, init[j].1), "qa");
          assert pairs[j] == init[j];
        } else {
          assert KeptPair(pairs[|pairs| - 1]);
        }
      }
    }
  }

  /** `idx` lists positions below `n` in strictly increasing order. */
  predicate IncreasingBelow(idx: seq<int>, n: int)
  {
    && (forall k :: 0 <= k < |idx| ==> 0 <= idx[k] < n)
    && (forall k, l :: 0 <= k < l < |idx| ==> idx[k] < idx[l])
  }

  /** The positions of the elements a filter keeps, in increasing order. */
  function Positions<T>(xs: seq<T>, keep: T -> bool): (idx: seq<int>)
    ensures IncreasingBelow(idx, |xs|)
    ensures forall j :: 0 <= j < |xs| ==> (j in idx <==> keep(xs[j]))
  {
    if xs == [] then []
    else
      var n := |xs| - 1;
      var idx0 := Positions(xs[..n], keep);
      assert forall j :: 0 <= j < n ==> xs[..n][j] == xs[j];
      if keep(xs[n]) then idx0 + [n] else idx0
  }

  /** The documentation filter of `process_documentation`. */
  predicate LongDoc(doc: string)
  {
    |doc| > 100
  }

  /** The k-th code example is the input at the k-th position the filter keeps: input order is kept. */
  lemma {:induction false} CodeInOrder(codes: seq<string>)
    ensures var idx := Positions(codes, LongCode);
      && |idx| == |CodeExamples(codes)|
      && forall k :: 0 <= k < |idx| ==> CodeExamples(codes)[k] == Example(codes[idx[k]], "code")
  {
    if codes != [] {
      var n := |codes| - 1;
      var init := codes[..n];
      CodeInOrder(init);
      var idx0, idx := Positions(init, LongCode), Positions(codes, LongCode);
      var r0, r := CodeExamples(init), CodeExamples(codes);
      assert r == if LongCode(codes[n]) then r0 + [Example(codes[n], "code")] else r0;
      assert idx == if LongCode(codes[n]) then idx0 + [n] else idx0;
      forall k | 0 <= k < |idx|
        ensures r[k] == Example(codes[idx[k]], "code")
      {
        if k < |idx0| {
          assert codes[idx0[k]] == init[idx0[k]];
        }
      }
    }
  }

  /** The k-th documentation example is the document at the k-th kept position. */
  lemma {:induction false} DocInOrder(docs: seq<string>)
    ensures var idx := Positions(docs, LongDoc);
      && |idx| == |DocExamples(docs)|
      && forall k :: 0 <= k < |idx| ==> DocExamples(docs)[k] == Example(docs[idx[k]], "documentation")
  {
    if docs != [] {
      var n := |docs| - 1;
      var init := docs[..n];
      DocInOrder(init);
      var idx0, idx := Positions(init, LongDoc), Positions(docs, LongDoc);
      var r0, r := DocExamples(init), DocExamples(docs);
      assert r == if LongDoc(docs[n]) then r0 + [Example(docs[n], "documentation")] else r0;
      assert idx == if LongDoc(docs[n]) then idx0 + [n] else idx0;
      forall k | 0 <= k < |idx|
        ensures r[k] == Example(docs[idx[k]], "documentation")
      {
        if k < |idx0| {
          assert docs[idx0[k]] == init[idx0[k]];
        }
      }
    }
  }

  /** The k-th question and answer example is the pair at the k-th kept position, through the template. */
  lemma {:induction false} QaInOrder(pairs: seq<(string, string)>)
    ensures var idx := Positions(pairs, KeptPair);
      && |idx| == |QaExamples(pairs)|
      && forall k :: 0 <= k < |idx| ==>
           QaExamples(pairs)[k] == Example(QaText(pairs[idx[k]].0, pairs[idx[k]].1), "qa")
  {
    if pairs != [] {
      var n := |pairs| - 1;
      var init := pairs[..n];
      QaInOrder(init);
      var idx0, idx := Positions(init, KeptPair), Positions(pairs, KeptPair);
      var r0, r := QaExamples(init), QaExamples(pairs);
      assert r == if KeptPair(pairs[n]) then r0 + [Example(QaText(pairs[n].0, pairs[n].1), "qa")] else r0;
      assert idx == if KeptPair(pairs[n]) then idx0 + [n] else idx0;
      forall k | 0 <= k < |idx|
        ensures r[k] == Example(QaText(pairs[idx[k]].0, pairs[idx[k]].1), "qa")
      {
        if k < |idx0| {
          assert pairs[idx0[k]] == init[idx0[k]];
        }
      }
    }
  }

  /** The question and the answer stand where the template puts them. */
  lemma QaTextPlaces(question: string, answer: string)
    ensures var t := QaText(question, answer);
      StartsWith(t, "Question: ") && t[|"Question: "|..][..|question|] == question
      && t[|t| - |answer|..] == answer
  {
    var t := QaText(question, answer);
    assert t[..|"Question: "|] == "Question: ";
    assert t[|"Question: "|..] == question + "\n\nAnswer: " + answer;
    assert t == "Question: " + question + "\n\nAnswer: " + answer;
  }

  /** The three generated tasks, each a fixed prefix and suffix around a source text. */
  datatype Task = Explanation | Generation | Improvement

  function Prefix(t: Task): string
  {
    match t
    case Explanation => "Explain this code:\n\n"
    case Generation => "Generate code based on this documentation:\n\n"
    case Improvement => "Suggest improvements for this code:\n\n"
  }

  function Suffix(t: Task): string
  {
    match t
    case Explanation => "\n\nExplanation:"
    case Generation => "\n\nCode:"
    case Improvement => "\n\nImprovements:"
  }

  function TaskKind(t: Task): string
  {
    match t
    case Explanation => "explanation"
    case Generation => "generation"
    case Improvement => "improvement"
  }

  /** A task example built from a source example. */
  function Wrap(t: Task, source: Example): Example
  {
    Example(Prefix(t) + source.text + Suffix(t), TaskKind(t))
  }

  /** The source text is the middle of the task text, between the task's prefix and suffix. */
  lemma WrapShape(t: Task, source: Example)
    ensures var e := Wrap(t, source);
      && e.kind == TaskKind(t)
      && |e.text| == |Prefix(t)| + |source.text| + |Suffix(t)|
      && StartsWith(e.text, Prefix(t)) && EndsWith(e.text, Suffix(t))
      && e.text[|Prefix(t)|..|e.text| - |Suffix(t)|] == source.text
  {
    var text := Wrap(t, source).text;
    assert text[..|Prefix(t)|] == Prefix(t);
    assert text[|text| - |Suffix(t)|..] == Suffix(t);
    assert text[|Prefix(t)|..|text| - |Suffix(t)|] == source.text;
  }

  const SampleSize: nat := 1000

  function Min(a: nat, b: nat): nat
  {
    if a <= b then a else b
  }

  /** Positions of a list of `size` elements. */
  predicate InRange(sample: seq<nat>, size: nat)
  {
    forall k :: 0 <= k < |sample| ==> sample[k] < size
  }

  /** What `random.sample(xs, min(1000, len(xs)))` returns: that many distinct positions of `xs`. */
  predicate IsSample(sample: seq<nat>, size: nat)
  {
    && |sample| == Min(SampleSize, size)
    && InRange(sample, size)
    && (forall i, j :: 0 <= i < j < |sample| ==> sample[i] != sample[j])
  }

  /** The examples of one task, in the order sampled. */
  function Tasks(t: Task, sources: seq<Example>, sample: seq<nat>): (r: seq<Example>)
    requires InRange(sample, |sources|)
    ensures |r| == |sample|
    ensures forall k :: 0 <= k < |r| ==> r[k] == Wrap(t, sources[sample[k]])
  {
    seq(|sample|, k requires 0 <= k < |sample| => Wrap(t, sources[sample[k]]))
  }

  /** The sampled examples as they are. */
  function Picked(sources: seq<Example>, sample: seq<nat>): (r: seq<Example>)
    requires InRange(sample, |sources|)
    ensures |r| == |sample|
    ensures forall k :: 0 <= k < |r| ==> r[k] == sources[sample[k]]
  {
    seq(|sample|, k requires 0 <= k < |sample| => sources[sample[k]])
  }

  /** `create_training_examples`: explanations, generations, improvements, then question and answer pairs. */
  function TrainingExamples(
    code: seq<Example>, docs: seq<Example>, qa: seq<Example>,
    explain: seq<nat>, generate: seq<nat>, improve: seq<nat>, answers: seq<nat>): seq<Example>
    requires InRange(explain, |code|) && InRange(generate, |docs|)
    requires InRange(improve, |code|) && InRange(answers, |qa|)
  {
    Tasks(Explanation, code, explain) + Tasks(Generation, docs, generate)
      + Tasks(Improvement, code, improve) + Picked(qa, answers)
  }

  /** The loop for one task of `create_training_examples`, appending to the examples so far. */
  method AppendTasks(examples: seq<Example>, t: Task, sources: seq<Example>, sample: seq<nat>)
    returns (result: seq<Example>)
    requires InRange(sample, |sources|)
    ensures result == examples + Tasks(t, sources, sample)
  {
    ghost var tasks := Tasks(t, sources, sample);
    result := examples;
    for i := 0 to |sample|
      invariant result == examples + tasks[..i]
    {
      var example := Wrap(t, sources[sample[i]]);
      assert tasks[..i + 1] == tasks[..i] + [example];
      result := result + [example];
    }
    assert tasks[..|sample|] == tasks;
  }

  method CreateTrainingExamples(
    code: seq<Example>, docs: seq<Example>, qa: seq<Example>,
    explain: seq<nat>, generate: seq<nat>, improve: seq<nat>, answers: seq<nat>)
    returns (examples: seq<Example>)
    requires IsSample(explain, |code|) && IsSample(generate, |docs|)
    requires IsSample(improve, |code|) && IsSample(answers, |qa|)
    ensures examples == TrainingExamples(code, docs, qa, explain, generate, improve, answers)
  {
    examples := AppendTasks([], Explanation, code, explain);
    examples := AppendTasks(examples, Generation, docs, generate);
    examples := AppendTasks(examples, Improvement, code, improve);
    examples := examples + Picked(qa, answers);
  }

  /** There are `2·min(1000, |code|) + min(1000, |docs|) + min(1000, |qa|)` examples. */
  lemma TrainingExamplesCount(
    code: seq<Example>, docs: seq<Example>, qa: seq<Example>,
    explain: seq<nat>, generate: seq<nat>, improve: seq<nat>, answers: seq<nat>)
    requires IsSample(explain, |code|) && IsSample(generate, |docs|)
    requires IsSample(improve, |code|) && IsSample(answers, |qa|)
    ensures |TrainingExamples(code, docs, qa, explain, generate, improve, answers)|
      == 2 * Min(SampleSize, |code|) + Min(SampleSize, |docs|) + Min(SampleSize, |qa|)
  {
  }

  /**
   * The examples come in four blocks, in this order: explanations of the
   * sampled code, generations from the sampled documentation, improvements
   * of the sampled code, and the sampled question and answer pairs.
   */
  lemma TrainingExamplesBlocks(
    code: seq<Example>, docs: seq<Example>, qa: seq<Example>,
    explain: seq<nat>, generate: seq<nat>, improve: seq<nat>, answers: seq<nat>)
    requires InRange(explain, |code|) && InRange(generate, |docs|)
    requires InRange(improve, |code|) && InRange(answers, |qa|)
    ensures var r := TrainingExamples(code, docs, qa, explain, generate, improve, answers);
      var e, g, i := |explain|, |explain| + |generate|, |explain| + |generate| + |improve|;
      && |r| == i + |answers|
      && r[..e] == Tasks(Explanation, code, explain)
      && r[e..g] == Tasks(Generation, docs, generate)
      && r[g..i] == Tasks(Improvement, code, improve)
      && r[i..] == Picked(qa, answers)
  {
    FourBlocks(Tasks(Explanation, code, explain), Tasks(Generation, docs, generate),
      Tasks(Improvement, code, improve), Picked(qa, answers));
  }

  lemma FourBlocks<T>(a: seq<T>, b: seq<T>, c: seq<T>, d: seq<T>)
    ensures var r := a + b + c + d;
      && r[..|a|] == a && r[|a|..|a| + |b|] == b
      && r[|a| + |b|..|a| + |b| + |c|] == c && r[|a| + |b| + |c|..] == d
  {
    var r := a + b + c + d;
    assert r[..|a|] == a;
    assert r[|a|..|a| + |b|] == b;
    assert r[|a| + |b|..|a| + |b| + |c|] == c;
    assert r[|a| + |b| + |c|..] == d;
  }
}
