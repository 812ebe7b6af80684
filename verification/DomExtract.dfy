/** `extractRenderedDOMMarkdownResult` of webutils/browser.go: every candidate is copied,
    cleaned, rendered and assessed, and the best result wins. */
module DomExtract {
  import opened Results
  import opened Strings
  import opened Shapes
  import opened Dom
  import opened DomContent
  import opened DomClone
  import opened DomSelect

  datatype Quality = Quality(textRunes: nat, score: int, semanticSignals: nat)
  datatype Rendered = Rendered(markdown: string, quality: Quality, sourceKind: string)

  /** The libraries and the scoring the extraction calls: HTML rendering, conversion to
      Markdown, which may fail, and the assessment of a Markdown text with a bonus. */
  datatype Converters = Converters(
    render: Tree -> string,
    convert: string -> Option<string>,
    assess: (string, int) -> Quality)

  /** The test that the extraction cleans with. */
  const RENDERED_DOM_NOISE: Test := (n: Info) => ShouldRemove(n)

  /** What one candidate yields, from the content of its subtree in the document alone. */
  function Evaluate(conv: Converters, noise: Test, content: Tree, bonus: int, kind: string): Option<Rendered>
  {
    var rendered := TrimSpace(conv.render(Prune(noise, content)));
    if rendered == "" then None
    else match conv.convert(rendered)
      case None => None
      case Some(text) =>
        var markdown := TrimSpace(text);
        var quality := conv.assess(markdown, bonus);
        if quality.textRunes == 0 then None else Some(Rendered(markdown, quality, kind))
  }

  /** A result depends on what is left of the content once it is pruned, and on nothing else of
      the document. */
  lemma {:induction false} PrunedContentDecides(conv: Converters, noise: Test, a: Tree, b: Tree, bonus: int, kind: string)
    requires Prune(noise, a) == Prune(noise, b)
    ensures Evaluate(conv, noise, a, bonus, kind) == Evaluate(conv, noise, b, bonus, kind)
  {
  }

  /** A usable result has text and is what the libraries make of the pruned content, without
      surrounding blanks and assessed with the bonus of its candidate; there is none exactly if
      nothing is rendered, the conversion fails or no text is left. */
  lemma {:induction false} EvaluatedIsConverted(conv: Converters, noise: Test, content: Tree, bonus: int, kind: string)
    ensures var r, html := Evaluate(conv, noise, content, bonus, kind), TrimSpace(conv.render(Prune(noise, content)));
      && (r.Some? <==>
            && html != "" && conv.convert(html).Some?
            && conv.assess(TrimSpace(conv.convert(html).value), bonus).textRunes > 0)
      && (r.Some? ==>
            && r.value.markdown == TrimSpace(conv.convert(html).value) && r.value.sourceKind == kind
            && r.value.quality == conv.assess(r.value.markdown, bonus) && r.value.quality.textRunes > 0)
  {
  }

  /** The comparison of the selection loop. */
  predicate IsBetter(a: Quality, b: Quality)
  {
    a.score > b.score || (a.score == b.score && a.textRunes > b.textRunes)
  }

  /** Result `i` is a largest one by score and, within one score, by length of text; and the
      earlier ones are smaller. */
  ghost predicate IsFirstBestAt(results: seq<Option<Rendered>>, i: nat)
  {
    && i < |results| && results[i].Some?
    && (forall j :: 0 <= j < |results| && results[j].Some? ==>
          var other, best := results[j].value.quality, results[i].value.quality;
          other.score < best.score || (other.score == best.score && other.textRunes <= best.textRunes))
    && (forall j :: 0 <= j < i && results[j].Some? ==>
          var other, best := results[j].value.quality, results[i].value.quality;
          other.score < best.score || (other.score == best.score && other.textRunes < best.textRunes))
  }

  /** `best` is the first of the largest results. */
  ghost predicate IsFirstBest(results: seq<Option<Rendered>>, best: Option<Rendered>)
  {
    match best
    case None => forall i :: 0 <= i < |results| ==> results[i] == None
    case Some(b) => exists i: nat :: IsFirstBestAt(results, i) && results[i] == Some(b)
  }

  /** The first best result is unique: the choice is determined by the results. */
  lemma {:induction false} FirstBestIsUnique(results: seq<Option<Rendered>>, a: Option<Rendered>, b: Option<Rendered>)
    requires IsFirstBest(results, a) && IsFirstBest(results, b)
    ensures a == b
  {
    if a.Some? && b.Some? {
      var i: nat :| IsFirstBestAt(results, i) && results[i] == a;
      var k: nat :| IsFirstBestAt(results, k) && results[k] == b;
      assert results[k].Some? && results[i].Some?;
    }
  }

  /** One comparison of the selection loop. */
  function Choose(best: Option<Rendered>, next: Option<Rendered>): Option<Rendered>
  {
    if next.Some? && (best.None? || IsBetter(next.value.quality, best.value.quality)) then next else best
  }

  function Chosen(results: seq<Option<Rendered>>): Option<Rendered>
  {
    if results == [] then None
    else Choose(Chosen(results[..|results| - 1]), results[|results| - 1])
  }

  /** Comparing each result with the best so far finds the first of the largest. */
  lemma {:induction false} ChosenIsFirstBest(results: seq<Option<Rendered>>)
    ensures IsFirstBest(results, Chosen(results))
  {
    if results != [] {
      var front, next := results[..|results| - 1], results[|results| - 1];
      ChosenIsFirstBest(front);
      ChoosingKeepsFirstBest(front, Chosen(front), next);
      assert results == front + [next];
    }
  }

  lemma {:induction false} ChoosingKeepsFirstBest(front: seq<Option<Rendered>>, best: Option<Rendered>, next: Option<Rendered>)
    requires IsFirstBest(front, best)
    ensures IsFirstBest(front + [next], Choose(best, next))
  {
    var results := front + [next];
    if best.Some? {
      var i: nat :| IsFirstBestAt(front, i) && front[i] == best;
      if Choose(best, next) == next {
        assert IsFirstBestAt(results, if next.Some? && IsBetter(next.value.quality, best.value.quality) then |front| else i);
      } else {
        assert IsFirstBestAt(results, i);
      }
    } else if next.Some? {
      assert IsFirstBestAt(results, |front|);
    }
  }

  /** Reads a linked tree off, as `html.Render` does. */
  method Read(node: Node, ghost l: Layout) returns (t: Tree)
    requires IsSound(l) && Linked(l) && node in l.rows
    ensures t == Content(l, node)
    decreases l.rank[node]
  {
    ghost var row, i := l.rows[node], 0;
    assert IsRow(l, node, row) && Chained(node, row);
    var kids: seq<Tree> := [];
    var child := node.firstChild;
    while child != null
      invariant i <= |row| && child == At(row, i)
      invariant kids == ContentAll(l, node, row[..i])
      decreases |row| - i
    {
      assert InPlace(node, row, i);
      var kid := Read(child, l);
      kids := kids + [kid];
      ContentOfPrefix(l, node, i);
      i := i + 1;
      child := child.nextSibling;
    }
    assert row[..i] == row;
    t := Tree(node.info, kids);
  }

  /** One turn of the selection loop: the candidate's subtree is copied, the copy cleaned and
      rendered; the document is only read. */
  method EvaluateCandidate(conv: Converters, noise: Test, candidate: Candidate, ghost l: Layout)
    returns (r: Option<Rendered>)
    requires IsSound(l) && Linked(l) && candidate.node in l.rows
    ensures r == Evaluate(conv, noise, Content(l, candidate.node), candidate.bonus, candidate.kind)
  {
    ghost var copy;
    var cloned;
    cloned, copy := Clone(candidate.node, l);
    Clean(noise, cloned, copy);
    CleaningPrunes(noise, copy, cloned);
    var cleaned := Read(cloned, CleanedLayout(noise, copy, cloned));
    var rendered := TrimSpace(conv.render(cleaned));
    if rendered == "" {
      return None;
    }
    var text := conv.convert(rendered);
    if text == None {
      return None;
    }
    var markdown := TrimSpace(text.value);
    var quality := conv.assess(markdown, candidate.bonus);
    if quality.textRunes == 0 {
      return None;
    }
    return Some(Rendered(markdown, quality, candidate.kind));
  }

  ghost function ResultsOf(conv: Converters, noise: Test, candidates: seq<Candidate>, l: Layout): (r: seq<Option<Rendered>>)
    requires IsSound(l) && forall i :: 0 <= i < |candidates| ==> candidates[i].node in l.rows
  {
    seq(|candidates|, i requires 0 <= i < |candidates| =>
      Evaluate(conv, noise, Content(l, candidates[i].node), candidates[i].bonus, candidates[i].kind))
  }

  /** The selection loop. It changes no existing node, so each candidate is assessed on the
      document as it was, however candidates are nested. */
  method SelectBest(conv: Converters, noise: Test, candidates: seq<Candidate>, ghost l: Layout)
    returns (best: Option<Rendered>)
    requires IsSound(l) && Linked(l) && forall i :: 0 <= i < |candidates| ==> candidates[i].node in l.rows
    ensures Linked(l)
    ensures best == Chosen(ResultsOf(conv, noise, candidates, l))
  {
    best := None;
    ghost var results := ResultsOf(conv, noise, candidates, l);
    for i := 0 to |candidates|
      invariant Linked(l) && best == Chosen(results[..i])
    {
      var next := EvaluateCandidate(conv, noise, candidates[i], l);
      assert results[..i + 1][..i] == results[..i] && results[i] == next;
      best := Choose(best, next);
    }
    assert results[..|candidates|] == results;
  }

  /** The whole extraction from a parsed document; the program calls it with
      `DOCUMENT_CLASSES` and `RENDERED_DOM_NOISE`. */
  method Extract(conv: Converters, classes: Classes, noise: Test, document: Node, ghost l: Layout)
    returns (candidates: seq<Candidate>, best: Option<Rendered>)
    requires IsSound(l) && Linked(l) && document in l.rows
    ensures Linked(l)
    ensures candidates == CandidatesOf(classes, Preorder(l, document))
    ensures forall i :: 0 <= i < |candidates| ==> candidates[i].node in l.rows
    ensures best == Chosen(ResultsOf(conv, noise, candidates, l))
  {
    candidates := CollectCandidates(document, classes, l);
    forall i | 0 <= i < |candidates| ensures candidates[i].node in l.rows {
      CandidateMembers(classes, Preorder(l, document), candidates[i]);
      PreorderMembers(l, document, candidates[i].node);
      ClearFalls(NOTHING, l, document, candidates[i].node);
    }
    best := SelectBest(conv, noise, candidates, l);
  }

  /** The function as it is called, with the outcomes of parsing the address and the HTML given.
      It succeeds exactly if the text is not blank, both parse, and some candidate is usable,
      and each failure has its own message. */
  method ExtractResult(conv: Converters, classes: Classes, noise: Test, html: string, pageIsAbsolute: bool,
                       parsed: Result<Node, string>, ghost l: Layout)
    returns (r: Result<Rendered, string>, ghost candidates: seq<Candidate>)
    requires IsSound(l) && Linked(l) && (parsed.Success? ==> parsed.value in l.rows)
    ensures Linked(l)
    ensures forall i :: 0 <= i < |candidates| ==> candidates[i].node in l.rows
    ensures parsed.Success? && TrimSpace(html) != "" && pageIsAbsolute ==>
      candidates == CandidatesOf(classes, Preorder(l, parsed.value))
    ensures r ==
      if TrimSpace(html) == "" then Failure("rendered HTML is empty")
      else if !pageIsAbsolute then Failure("page URL is invalid for extraction")
      else if parsed.Failure? then Failure(parsed.error)
      else if candidates == [] then Failure("no rendered DOM candidate")
      else
        var best := Chosen(ResultsOf(conv, noise, candidates, l));
        if best == None then Failure("rendered DOM markdown content is empty") else Success(best.value)
  {
    candidates := [];
    if TrimSpace(html) == "" {
      return Failure("rendered HTML is empty"), candidates;
    }
    if !pageIsAbsolute {
      return Failure("page URL is invalid for extraction"), candidates;
    }
    if parsed.Failure? {
      return Failure(parsed.error), candidates;
    }
    var found, best := Extract(conv, classes, noise, parsed.value, l);
    candidates := found;
    if |found| == 0 {
      return Failure("no rendered DOM candidate"), candidates;
    }
    if best == None {
      return Failure("rendered DOM markdown content is empty"), candidates;
    }
    return Success(best.value), candidates;
  }
}
