// memory/_text.py and memory/coordinator.py: what the layers contribute is cut down to the
// agent's envelope cap, the last-listed layer first.
module Envelope {
  import opened Events

  datatype Block = TextBlock(text: string) | OtherBlock
  datatype Message = Message(role: string, content: seq<Block>)
  datatype Doc = Doc(id: string, text: string)
  datatype Content = Text(text: string) | Messages(messages: seq<Message>) | Docs(docs: seq<Doc>)

  // tokens is what the layer declares; it need not be the estimate of its content.
  datatype Contribution = Contribution(layer: string, content: Content, tokens: int, marked: bool)

  // --- estimates ---

  const CHARS_PER_TOKEN: nat := 4

  function EstimateTokens(text: string): nat {
    if text == [] then 0 else if |text| / CHARS_PER_TOKEN > 1 then |text| / CHARS_PER_TOKEN else 1
  }

  function MessageText(content: seq<Block>): string {
    if content == [] then []
    else (if content[0].TextBlock? then content[0].text else []) + MessageText(content[1..])
  }

  function Join(lines: seq<string>): string {
    if lines == [] then [] else if |lines| == 1 then lines[0] else lines[0] + "\n" + Join(lines[1..])
  }

  function MessageLine(m: Message): string {
    m.role + ": " + MessageText(m.content)
  }

  function DocLine(d: Doc): string {
    "[" + d.id + "] " + d.text
  }

  function MessageLines(messages: seq<Message>): (lines: seq<string>)
    ensures |lines| == |messages|
  {
    seq(|messages|, i requires 0 <= i < |messages| => MessageLine(messages[i]))
  }

  function DocLines(docs: seq<Doc>): (lines: seq<string>)
    ensures |lines| == |docs|
  {
    seq(|docs|, i requires 0 <= i < |docs| => DocLine(docs[i]))
  }

  function ContributionText(content: Content): string {
    match content
    case Text(text) => text
    case Messages(messages) => Join(MessageLines(messages))
    case Docs(docs) => Join(DocLines(docs))
  }

  function ContributionTokens(content: Content): nat {
    EstimateTokens(ContributionText(content))
  }

  // --- the estimate in the lengths of the texts ---

  // A message's texts, its role, and the two characters between.
  function BlocksLength(content: seq<Block>): nat {
    if content == [] then 0
    else (if content[0].TextBlock? then |content[0].text| else 0) + BlocksLength(content[1..])
  }

  function MessagesLength(messages: seq<Message>): nat {
    if messages == [] then 0
    else |messages[0].role| + 2 + BlocksLength(messages[0].content) + MessagesLength(messages[1..])
  }

  function DocsLength(docs: seq<Doc>): nat {
    if docs == [] then 0 else |docs[0].id| + 3 + |docs[0].text| + DocsLength(docs[1..])
  }

  // Lines are separated by one character each.
  function ContentLength(content: Content): nat {
    match content
    case Text(text) => |text|
    case Messages(messages) => MessagesLength(messages) + if |messages| > 1 then |messages| - 1 else 0
    case Docs(docs) => DocsLength(docs) + if |docs| > 1 then |docs| - 1 else 0
  }

  lemma {:induction false} MessageTextLength(content: seq<Block>)
    ensures |MessageText(content)| == BlocksLength(content)
  {
    if content != [] {
      MessageTextLength(content[1..]);
    }
  }

  lemma {:induction false} JoinedMessages(messages: seq<Message>)
    ensures |Join(MessageLines(messages))| == ContentLength(Messages(messages))
  {
    if messages != [] {
      var lines := MessageLines(messages);
      MessageTextLength(messages[0].content);
      JoinedMessages(messages[1..]);
      assert lines[1..] == MessageLines(messages[1..]) && lines[0] == MessageLine(messages[0]);
    }
  }

  lemma {:induction false} JoinedDocs(docs: seq<Doc>)
    ensures |Join(DocLines(docs))| == ContentLength(Docs(docs))
  {
    if docs != [] {
      var lines := DocLines(docs);
      JoinedDocs(docs[1..]);
      assert lines[1..] == DocLines(docs[1..]) && lines[0] == DocLine(docs[0]);
    }
  }

  // Tokens are a quarter of the characters, rounded down, and at least 1 if there are any; every
  // text, role, id and line break counts.
  lemma TokensCountCharacters(content: Content)
    ensures var n := ContentLength(content);
            ContributionTokens(content) == if n == 0 then 0 else if n < 8 then 1 else n / 4
  {
    match content
    case Text(_) =>
    case Messages(messages) => JoinedMessages(messages);
    case Docs(docs) => JoinedDocs(docs);
  }

  // --- fewer cost less ---

  lemma EstimateMonotone(a: string, b: string)
    requires |a| <= |b|
    ensures EstimateTokens(a) <= EstimateTokens(b)
  {
  }

  lemma {:induction false} JoinGrows(lines: seq<string>, line: string)
    ensures |Join(lines)| <= |Join([line] + lines)| && |Join(lines)| <= |Join(lines + [line])|
  {
    if lines != [] {
      assert ([line] + lines)[1..] == lines;
      assert (lines + [line])[1..] == lines[1..] + [line];
      if |lines| == 1 {
        assert Join([line]) == line;
      }
      JoinGrows(lines[1..], line);
    }
  }

  // Fewer messages or documents never cost more.
  lemma {:induction false} SuffixCheaper(messages: seq<Message>, i: nat)
    requires i <= |messages|
    ensures ContributionTokens(Messages(messages[i..])) <= ContributionTokens(Messages(messages))
  {
    if i == 0 {
      assert messages[0..] == messages;
    } else {
      SuffixCheaper(messages, i - 1);
      var longer := messages[i - 1..];
      assert MessageLines(longer) == [MessageLine(longer[0])] + MessageLines(messages[i..]);
      JoinGrows(MessageLines(messages[i..]), MessageLine(longer[0]));
      EstimateMonotone(Join(MessageLines(messages[i..])), Join(MessageLines(longer)));
    }
  }

  lemma {:induction false} PrefixCheaper(docs: seq<Doc>, i: nat)
    requires i <= |docs|
    ensures ContributionTokens(Docs(docs[..i])) <= ContributionTokens(Docs(docs))
    decreases |docs| - i
  {
    if i == |docs| {
      assert docs[..i] == docs;
    } else {
      PrefixCheaper(docs, i + 1);
      var longer := docs[..i + 1];
      assert DocLines(longer) == DocLines(docs[..i]) + [DocLine(docs[i])];
      JoinGrows(DocLines(docs[..i]), DocLine(docs[i]));
      EstimateMonotone(Join(DocLines(docs[..i])), Join(DocLines(longer)));
    }
  }

  // --- truncate_contribution ---

  // What is kept of a content cut down to a limit: the head of a text, the most recent
  // messages, the first documents; nothing longer would do.
  ghost predicate KeptWithin(content: Content, kept: Content, limit: nat) {
    && ContributionTokens(kept) <= limit
    && match content
       case Text(text) => kept.Text? && kept.text == text[..if 4 * limit <= |text| then 4 * limit else |text|]
       case Messages(messages) =>
         kept.Messages? && |kept.messages| <= |messages| && kept.messages == messages[|messages| - |kept.messages|..]
         && forall i :: 0 <= i <= |messages| ==>
                          (ContributionTokens(Messages(messages[i..])) <= limit <==> |messages| - |kept.messages| <= i)
       case Docs(docs) =>
         kept.Docs? && kept.docs <= docs
         && forall i :: 0 <= i <= |docs| ==>
                          (ContributionTokens(Docs(docs[..i])) <= limit <==> i <= |kept.docs|)
  }

  // The result of truncate_contribution.
  ghost predicate TruncatedTo(c: Contribution, r: Contribution, limit: nat) {
    if c.tokens <= limit then r == c
    else
      && r.layer == c.layer && r.marked && r.tokens == ContributionTokens(r.content)
      && KeptWithin(c.content, r.content, limit)
  }

  method TruncateContribution(c: Contribution, limit: nat) returns (r: Contribution)
    ensures TruncatedTo(c, r, limit)
  {
    if c.tokens <= limit {
      return c;
    }
    var kept: Content;
    match c.content {
      case Text(text) =>
        kept := Text(text[..if 4 * limit <= |text| then 4 * limit else |text|]);
      case Messages(messages) =>
        var rest := KeepRecent(messages, limit);
        kept := Messages(rest);
      case Docs(docs) =>
        var rest := KeepFirst(docs, limit);
        kept := Docs(rest);
    }
    r := Contribution(c.layer, kept, ContributionTokens(kept), true);
  }

  // messages.pop(0) while there are messages and they cost too much.
  method KeepRecent(all: seq<Message>, limit: nat) returns (messages: seq<Message>)
    ensures KeptWithin(Messages(all), Messages(messages), limit)
  {
    messages := all;
    ghost var dropped := 0;
    while messages != [] && ContributionTokens(Messages(messages)) > limit
      invariant 0 <= dropped <= |all| && messages == all[dropped..]
      invariant LongerDoNotFit(all, dropped, limit)
    {
      DropOne(all, dropped, limit);
      messages := messages[1..];
      dropped := dropped + 1;
    }
    NoMessages();
    ShorterSuffixesFit(all, dropped, limit);
  }

  ghost predicate LongerDoNotFit(all: seq<Message>, dropped: nat, limit: nat)
    requires dropped <= |all|
  {
    forall i :: 0 <= i < dropped ==> ContributionTokens(Messages(all[i..])) > limit
  }

  lemma DropOne(all: seq<Message>, dropped: nat, limit: nat)
    requires dropped < |all| && LongerDoNotFit(all, dropped, limit)
    requires ContributionTokens(Messages(all[dropped..])) > limit
    ensures all[dropped..][1..] == all[dropped + 1..] && LongerDoNotFit(all, dropped + 1, limit)
  {
  }

  lemma NoMessages()
    ensures ContributionTokens(Messages([])) == 0
  {
    assert MessageLines([]) == [];
  }

  lemma ShorterSuffixesFit(all: seq<Message>, dropped: nat, limit: nat)
    requires dropped <= |all| && ContributionTokens(Messages(all[dropped..])) <= limit
             && LongerDoNotFit(all, dropped, limit)
    ensures KeptWithin(Messages(all), Messages(all[dropped..]), limit)
  {
    var rest := all[dropped..];
    forall i | dropped <= i <= |all| ensures ContributionTokens(Messages(all[i..])) <= limit {
      SuffixCheaper(rest, i - dropped);
      assert rest[i - dropped..] == all[i..];
    }
  }

  // docs.pop() while there are documents and they cost too much.
  method KeepFirst(all: seq<Doc>, limit: nat) returns (docs: seq<Doc>)
    ensures KeptWithin(Docs(all), Docs(docs), limit)
  {
    docs := all;
    ghost var kept := |all|;
    while docs != [] && ContributionTokens(Docs(docs)) > limit
      invariant 0 <= kept <= |all| && docs == all[..kept]
      invariant MoreDoNotFit(all, kept, limit)
    {
      PopOne(all, kept, limit);
      docs := docs[..|docs| - 1];
      kept := kept - 1;
    }
    NoDocs();
    ShorterPrefixesFit(all, kept, limit);
  }

  ghost predicate MoreDoNotFit(all: seq<Doc>, kept: nat, limit: nat) {
    forall i :: kept < i <= |all| ==> ContributionTokens(Docs(all[..i])) > limit
  }

  lemma PopOne(all: seq<Doc>, kept: nat, limit: nat)
    requires 0 < kept <= |all| && MoreDoNotFit(all, kept, limit)
    requires ContributionTokens(Docs(all[..kept])) > limit
    ensures all[..kept][..kept - 1] == all[..kept - 1] && MoreDoNotFit(all, kept - 1, limit)
  {
  }

  lemma NoDocs()
    ensures ContributionTokens(Docs([])) == 0
  {
    assert DocLines([]) == [];
  }

  lemma ShorterPrefixesFit(all: seq<Doc>, kept: nat, limit: nat)
    requires kept <= |all| && ContributionTokens(Docs(all[..kept])) <= limit && MoreDoNotFit(all, kept, limit)
    ensures KeptWithin(Docs(all), Docs(all[..kept]), limit)
  {
    var head := all[..kept];
    forall i | 0 <= i <= kept ensures ContributionTokens(Docs(all[..i])) <= limit {
      PrefixCheaper(head, i);
      assert head[..i] == all[..i];
    }
  }

  // --- _apply_envelope_cap ---

  function Total(cs: seq<Contribution>): int {
    if cs == [] then 0 else Total(cs[..|cs| - 1]) + cs[|cs| - 1].tokens
  }

  function Min(a: int, b: int): int {
    if a <= b then a else b
  }

  function Max(a: int, b: int): int {
    if a >= b then a else b
  }

  // The result: everything before `cut` is untouched, the layer at `cut` is cut down to what
  // the layers before it leave of the cap, and nothing is left of those after it.
  ghost predicate Capped(cs: seq<Contribution>, out: seq<Contribution>, cap: nat, cut: nat) {
    Shaped(cs, out, cut) && Total(out) <= cap
  }

  ghost predicate Shaped(cs: seq<Contribution>, out: seq<Contribution>, cut: nat) {
    && |out| == |cs| && cut <= |cs|
    && (forall i :: 0 <= i < cut ==> out[i] == cs[i])
    && (forall i :: cut < i < |cs| ==> Emptied(cs[i], out[i]))
    && (cut < |cs| ==> CutAt(cs[cut], out[cut]))
  }

  ghost predicate CutAt(c: Contribution, r: Contribution) {
    exists limit: nat :: limit < Max(c.tokens, 1) && TruncatedTo(c, r, limit)
  }

  // A layer of which no token is left; one that declared none or fewer is not touched.
  ghost predicate Emptied(c: Contribution, r: Contribution) {
    TruncatedTo(c, r, 0) && r.tokens == Min(c.tokens, 0)
  }

  // The names of the layers handled, the last first.
  function Handled(cs: seq<Contribution>, from: nat): seq<string>
    requires from <= |cs|
    decreases |cs| - from
  {
    if from == |cs| then []
    else Handled(cs, from + 1) + if cs[from].tokens == 0 then [] else [cs[from].layer]
  }

  lemma {:induction false} TotalUpdate(cs: seq<Contribution>, i: nat, c: Contribution)
    requires i < |cs|
    ensures Total(cs[i := c]) == Total(cs) - cs[i].tokens + c.tokens
  {
    var n := |cs| - 1;
    if i == n {
      assert cs[i := c][..n] == cs[..n];
    } else {
      assert cs[i := c][..n] == cs[..n][i := c];
      TotalUpdate(cs[..n], i, c);
    }
  }

  lemma {:induction false} TotalOfNone(cs: seq<Contribution>)
    requires forall i :: 0 <= i < |cs| ==> cs[i].tokens <= 0
    ensures Total(cs) <= 0
  {
    if cs != [] {
      TotalOfNone(cs[..|cs| - 1]);
    }
  }

  method ApplyEnvelopeCap(cs: seq<Contribution>, maxEnvelopeTokens: Option<nat>)
    returns (out: seq<Contribution>, truncated: seq<string>, ghost cut: nat)
    ensures maxEnvelopeTokens.None? ==> out == cs && truncated == []
    ensures maxEnvelopeTokens.Some? ==>
              && IsCapping(cs, out, maxEnvelopeTokens.value, cut)
              && truncated == Handled(cs, cut)
              && (Total(cs) <= maxEnvelopeTokens.value <==> cut == |cs|)
  {
    cut := |cs|;
    if maxEnvelopeTokens.None? {
      return cs, [], cut;
    }
    var cap := maxEnvelopeTokens.value;
    var total := SumTokens(cs);
    if total <= cap {
      return cs, [], cut;
    }
    out, truncated, cut := CutBack(cs, total, cap);
  }

  // The loop: the last-listed layer is cut first.
  method CutBack(cs: seq<Contribution>, sum: int, cap: nat)
    returns (out: seq<Contribution>, truncated: seq<string>, ghost cut: nat)
    requires sum == Total(cs) > cap
    ensures cut < |cs| && IsCapping(cs, out, cap, cut) && truncated == Handled(cs, cut)
  {
    var total := sum;
    out, truncated, cut := cs, [], |cs|;
    var index := |cs| - 1;
    Begin(cs, cap);
    while index >= 0
      invariant -1 <= index < |cs| && cut == index + 1
      invariant At(cs, out, truncated, total, cap, cut)
    {
      var excess := total - cap;
      if excess <= 0 {
        break;
      }
      var contribution := out[index];
      if contribution.tokens == 0 {
        Skip(cs, out, truncated, total, cap, index);
      } else {
        var allowed := Max(0, contribution.tokens - excess);
        var cutDown := TruncateContribution(contribution, allowed);
        Step(cs, out, truncated, total, cap, index, cutDown);
        total := total - (contribution.tokens - cutDown.tokens);
        out := out[index := cutDown];
        truncated := truncated + [contribution.layer];
      }
      cut := cut - 1;
      index := index - 1;
    }
    Finish(cs, out, truncated, total, cap, cut);
  }

  // Where the loop stands once the layers from `cut` on are done.
  ghost predicate At(cs: seq<Contribution>, out: seq<Contribution>, truncated: seq<string>, total: int, cap: nat,
                     cut: nat)
  {
    && |out| == |cs| && cut <= |cs| && total == Total(out) && truncated == Handled(cs, cut)
    && if total > cap then Spent(cs, out, cut) else Reached(cs, out, cap, cut)
  }

  lemma Begin(cs: seq<Contribution>, cap: nat)
    requires Total(cs) > cap
    ensures At(cs, cs, [], Total(cs), cap, |cs|)
  {
  }

  lemma Finish(cs: seq<Contribution>, out: seq<Contribution>, truncated: seq<string>, total: int, cap: nat, cut: nat)
    requires At(cs, out, truncated, total, cap, cut) && (total <= cap || cut == 0)
    ensures cut < |cs| && IsCapping(cs, out, cap, cut) && truncated == Handled(cs, cut)
  {
    if total > cap {
      TotalOfNone(out);
      assert false;
    }
  }

  ghost predicate IsCapping(cs: seq<Contribution>, out: seq<Contribution>, cap: nat, cut: nat) {
    Capped(cs, out, cap, cut) && (cut < |cs| ==> Frugal(cs, out, cap, cut))
  }

  ghost predicate Reached(cs: seq<Contribution>, out: seq<Contribution>, cap: nat, cut: nat) {
    cut < |cs| && Shaped(cs, out, cut) && Frugal(cs, out, cap, cut)
  }

  method SumTokens(cs: seq<Contribution>) returns (total: int)
    ensures total == Total(cs)
  {
    total := 0;
    for i := 0 to |cs|
      invariant total == Total(cs[..i])
    {
      assert cs[..i + 1][..i] == cs[..i];
      total := total + cs[i].tokens;
    }
    assert cs[..|cs|] == cs;
  }

  // The layer that brought the total under the cap was cut down to exactly the tokens the
  // others leave, so a layer of text whose estimate is accurate fills the cap.
  ghost predicate Frugal(cs: seq<Contribution>, out: seq<Contribution>, cap: nat, cut: nat)
    requires cut < |cs| == |out|
  {
    var limit := cap - (Total(out) - out[cut].tokens);
    && 0 <= limit < cs[cut].tokens && TruncatedTo(cs[cut], out[cut], limit)
    && (cs[cut].content.Text? && cs[cut].tokens == ContributionTokens(cs[cut].content) ==> Total(out) == cap)
  }

  // The layers from `from` on have been gone through and the cap is not reached yet.
  ghost predicate Spent(cs: seq<Contribution>, out: seq<Contribution>, from: nat) {
    Shaped(cs, out, from) && (from < |cs| ==> Emptied(cs[from], out[from]))
  }

  lemma Skip(cs: seq<Contribution>, out: seq<Contribution>, truncated: seq<string>, total: int, cap: nat, index: nat)
    requires index < |cs| == |out| && total > cap && At(cs, out, truncated, total, cap, index + 1)
    requires out[index].tokens == 0
    ensures At(cs, out, truncated, total, cap, index)
  {
    assert TruncatedTo(cs[index], out[index], 0);
  }

  lemma Step(cs: seq<Contribution>, out: seq<Contribution>, truncated: seq<string>, total: int, cap: nat, index: nat,
             r: Contribution)
    requires index < |cs| == |out| && total > cap && At(cs, out, truncated, total, cap, index + 1)
    requires out[index].tokens != 0 && TruncatedTo(out[index], r, Max(0, out[index].tokens - (total - cap)))
    ensures At(cs, out[index := r], truncated + [out[index].layer], total - (out[index].tokens - r.tokens), cap, index)
  {
    TotalUpdate(out, index, r);
    CutLayer(cs, out, cap, index, r);
  }

  lemma CutLayer(cs: seq<Contribution>, out: seq<Contribution>, cap: nat, index: nat, r: Contribution)
    requires index < |cs| && Spent(cs, out, index + 1) && Total(out) > cap && cs[index].tokens != 0
    requires TruncatedTo(cs[index], r, Max(0, cs[index].tokens - (Total(out) - cap)))
    requires Total(out[index := r]) == Total(out) - cs[index].tokens + r.tokens
    ensures var next := out[index := r];
            if Total(next) > cap then Spent(cs, next, index) else Reached(cs, next, cap, index)
  {
    var limit := Max(0, cs[index].tokens - (Total(out) - cap));
    assert CutAt(cs[index], r) by {
      assert limit < Max(cs[index].tokens, 1);
    }
  }

  // --- the result is determined ---

  // Tokens below zero of the layers from `from` on: what remains of emptied layers.
  function Floor(cs: seq<Contribution>, from: nat): int
    requires from <= |cs|
    decreases |cs|
  {
    if from == |cs| then 0 else Floor(cs[..|cs| - 1], from) + Min(cs[|cs| - 1].tokens, 0)
  }

  lemma {:induction false} CappedTotal(cs: seq<Contribution>, out: seq<Contribution>, cut: nat)
    requires cut < |cs| == |out|
    requires forall i :: 0 <= i < cut ==> out[i] == cs[i]
    requires forall i :: cut < i < |cs| ==> out[i].tokens == Min(cs[i].tokens, 0)
    ensures Total(out) == Total(cs[..cut]) + out[cut].tokens + Floor(cs, cut + 1)
  {
    var n := |cs| - 1;
    if cut == n {
      assert out[..n] == cs[..n];
    } else {
      CappedTotal(cs[..n], out[..n], cut);
      assert cs[..n][..cut] == cs[..cut];
    }
  }

  lemma {:induction false} PrefixAboveFloor(cs: seq<Contribution>, i: nat, j: nat)
    requires i < j <= |cs|
    ensures Total(cs[..j]) + Floor(cs, j) >= Total(cs[..i]) + cs[i].tokens + Floor(cs, i + 1)
  {
    assert cs[..j][..j - 1] == cs[..j - 1];
    if i + 1 < j {
      PrefixAboveFloor(cs, i, j - 1);
      FloorStep(cs, j - 1);
    }
  }

  lemma {:induction false} FloorStep(cs: seq<Contribution>, i: nat)
    requires i < |cs|
    ensures Floor(cs, i) == Min(cs[i].tokens, 0) + Floor(cs, i + 1)
  {
    var n := |cs| - 1;
    if i < n {
      FloorStep(cs[..n], i);
    }
  }

  lemma CutsAgree(cs: seq<Contribution>, out: seq<Contribution>, other: seq<Contribution>, cap: nat, cut: nat,
                  cut': nat)
    requires IsCapping(cs, out, cap, cut) && IsCapping(cs, other, cap, cut') && cut < |cs| && cut' < |cs|
    ensures cut' <= cut
  {
    if cut < cut' {
      CappedTotal(cs, out, cut);
      CappedTotal(cs, other, cut');
      PrefixAboveFloor(cs, cut, cut');
      FloorStep(cs, cut');
    }
  }

  lemma TruncationIsDetermined(c: Contribution, r: Contribution, r': Contribution, limit: nat)
    requires TruncatedTo(c, r, limit) && TruncatedTo(c, r', limit)
    ensures r == r'
  {
    if c.tokens > limit {
      match c.content
      case Text(_) =>
      case Messages(messages) =>
        var n, n' := |messages| - |r.content.messages|, |messages| - |r'.content.messages|;
        assert ContributionTokens(Messages(messages[n..])) <= limit
               && ContributionTokens(Messages(messages[n'..])) <= limit;
      case Docs(docs) =>
        assert docs[..|r.content.docs|] == r.content.docs && docs[..|r'.content.docs|] == r'.content.docs;
    }
  }

  lemma CutLayersAgree(cs: seq<Contribution>, out: seq<Contribution>, other: seq<Contribution>, cap: nat, cut: nat)
    requires IsCapping(cs, out, cap, cut) && IsCapping(cs, other, cap, cut) && cut < |cs|
    ensures out[cut] == other[cut]
  {
    CappedTotal(cs, out, cut);
    CappedTotal(cs, other, cut);
    TruncationIsDetermined(cs[cut], out[cut], other[cut], cap - (Total(out) - out[cut].tokens));
  }

  lemma EmptiedLayersAgree(cs: seq<Contribution>, out: seq<Contribution>, other: seq<Contribution>, cut: nat)
    requires Shaped(cs, out, cut) && Shaped(cs, other, cut)
    ensures forall i :: cut < i < |cs| ==> out[i] == other[i]
  {
  }

  lemma SameCut(cs: seq<Contribution>, out: seq<Contribution>, other: seq<Contribution>, cap: nat, cut: nat)
    requires IsCapping(cs, out, cap, cut) && IsCapping(cs, other, cap, cut) && cut < |cs|
    ensures out == other
  {
    CutLayersAgree(cs, out, other, cap, cut);
    EmptiedLayersAgree(cs, out, other, cut);
    assert forall i :: 0 <= i < cut ==> out[i] == other[i];
  }

  // Shape, frugality and the cap leave exactly one result.
  lemma CappingIsDetermined(cs: seq<Contribution>, out: seq<Contribution>, other: seq<Contribution>, cap: nat, cut: nat,
                            cut': nat)
    requires IsCapping(cs, out, cap, cut) && IsCapping(cs, other, cap, cut')
    requires (cut == |cs| <==> Total(cs) <= cap) && (cut' == |cs| <==> Total(cs) <= cap)
    ensures out == other && cut == cut'
  {
    if cut < |cs| {
      CutsAgree(cs, out, other, cap, cut, cut');
      CutsAgree(cs, other, out, cap, cut', cut);
      SameCut(cs, out, other, cap, cut);
    }
  }

  // Applying the cap to its own result changes nothing.
  lemma ReapplyingChangesNothing(cs: seq<Contribution>, out: seq<Contribution>, again: seq<Contribution>, cap: nat,
                                 cut: nat, cut': nat)
    requires Capped(cs, out, cap, cut) && IsCapping(out, again, cap, cut')
    requires cut' == |out| <==> Total(out) <= cap
    ensures again == out
  {
    CappingIsDetermined(out, again, out, cap, cut', |out|);
  }
}
