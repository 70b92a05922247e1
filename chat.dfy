/**
 * The BrandChat widget of chat.js: a keyword matcher over a fixed knowledge
 * base and the widget's state (open flag, aria-expanded attribute, message
 * log, input box). The DOM is reduced to those four pieces of state; the
 * replies that setTimeout schedules sit in a queue until delivered.
 */
module Chat {
  import opened Wrappers
  import opened Text

  datatype KnowledgeItem = KnowledgeItem(keywords: seq<string>, response: string)

  const CloudResponse: string :=
    "Ryan has architected multi-cloud strategies at Visa, Arrow, and Pulte Financial Services, moving billion-dollar platforms into Azure while keeping resiliency and compliance front-and-center."

  const AIResponse: string :=
    "He founded the AI Center of Excellence at Pulte Financial Services and brought GenAI into mortgage production\U{2014}governing risk while automating document reviews, sentiment analysis, and incentive modeling."

  const CostResponse: string :=
    "Ryan regularly pairs innovation with discipline: Arrow realized a 30% cloud cost reduction and Pulte recognized multimillion-dollar savings through his optimization playbooks."

  const TeamResponse: string :=
    "He has scaled high-performing teams, bringing Scaled Agile to 100+ engineers at Arrow and mentoring architecture guilds to ship faster with better quality."

  const BrandResponse: string :=
    "4everinbeta is Ryan's reminder to stay curious, humble, and always shipping. It's drawn from his 2014 LinkedIn essay about choosing a perpetual-learning mindset."

  const ContactResponse: string :=
    "You can reach Ryan directly at ryankbrown@gmail.com or on LinkedIn at linkedin.com/in/4everinbeta."

  const CloudKeywords: seq<string> := ["cloud", "azure", "aws", "ali", "migration"]
  const AIKeywords: seq<string> := ["ai", "ml", "genai", "governance", "automation"]
  const CostKeywords: seq<string> := ["cost", "efficiency", "optimize", "roi"]
  const TeamKeywords: seq<string> := ["team", "leadership", "coaching", "culture", "agile"]
  const BrandKeywords: seq<string> := ["4everinbeta", "beta", "nom de plume", "brand"]
  const ContactKeywords: seq<string> := ["contact", "email", "connect", "reach"]

  /** brandChatKnowledge */
  const Knowledge: seq<KnowledgeItem> := [
    KnowledgeItem(CloudKeywords, CloudResponse),
    KnowledgeItem(AIKeywords, AIResponse),
    KnowledgeItem(CostKeywords, CostResponse),
    KnowledgeItem(TeamKeywords, TeamResponse),
    KnowledgeItem(BrandKeywords, BrandResponse),
    KnowledgeItem(ContactKeywords, ContactResponse)
  ]

  const FallbackResponses: seq<string> := [
    "I help synthesize Ryan's background. Try asking about AI, cloud, or leadership.",
    "Ryan blends deep engineering with board-level advisory chops\U{2014}ask me about a specific initiative!",
    "That's a new one. Could you rephrase it around impact, teams, or technology?"
  ]

  const Greeting: string :=
    "Hi\U{2014}I'm the 4everinbeta concierge. Ask me about Ryan's AI work, digital transformation wins, or how to get in touch."

  // ---------------------------------------------------------------- matcher

  /** The keywords.reduce fold: one point per keyword whose lowercase form occurs in the message. */
  function Hits(normalized: string, keywords: seq<string>): (h: nat)
    ensures h <= |keywords|
  {
    if keywords == [] then 0
    else Hits(normalized, keywords[..|keywords| - 1])
         + (if Contains(normalized, Lower(keywords[|keywords| - 1])) then 1 else 0)
  }

  /** An item's score for a message. */
  function Score(text: string, item: KnowledgeItem): nat {
    Hits(Lower(text), item.keywords)
  }

  /** The positions of the keywords that occur in the message. */
  ghost function Matching(normalized: string, keywords: seq<string>): set<nat> {
    set i: nat | i < |keywords| && Contains(normalized, Lower(keywords[i]))
  }

  /** The score counts the matching keywords. */
  lemma {:induction false} HitsCountsMatching(normalized: string, keywords: seq<string>)
    ensures Hits(normalized, keywords) == |Matching(normalized, keywords)|
  {
    if keywords != [] {
      var init, m := keywords[..|keywords| - 1], |keywords| - 1;
      HitsCountsMatching(normalized, init);
      if Contains(normalized, Lower(keywords[m])) {
        assert Matching(normalized, keywords) == Matching(normalized, init) + {m};
      } else {
        assert Matching(normalized, keywords) == Matching(normalized, init);
      }
    }
  }

  /** No point exactly when no keyword occurs in the normalized message. */
  lemma {:induction false} HitsZeroIff(normalized: string, keywords: seq<string>)
    ensures Hits(normalized, keywords) == 0 <==>
      forall i :: 0 <= i < |keywords| ==> !Contains(normalized, Lower(keywords[i]))
  {
    var matching := Matching(normalized, keywords);
    HitsCountsMatching(normalized, keywords);
    if Hits(normalized, keywords) != 0 {
      var i :| i in matching;
      assert Contains(normalized, Lower(keywords[i]));
    }
    forall i | 0 <= i < |keywords| && Contains(normalized, Lower(keywords[i]))
      ensures Hits(normalized, keywords) != 0
    {
      assert i in matching;
    }
  }

  /** Exactly one occurring keyword gives one point. */
  lemma {:induction false} HitsOne(normalized: string, keywords: seq<string>, j: nat)
    requires j < |keywords| && Contains(normalized, Lower(keywords[j]))
    requires forall i :: 0 <= i < |keywords| && i != j ==> !Contains(normalized, Lower(keywords[i]))
    ensures Hits(normalized, keywords) == 1
  {
    HitsCountsMatching(normalized, keywords);
    assert Matching(normalized, keywords) == {j};
  }

  /** The state of the forEach loop: the item kept so far and its score (bestScore starts at 0). */
  datatype Pick = Pick(best: Option<nat>, score: nat)

  /**
   * The forEach over the items: an item replaces the kept one only with a
   * strictly greater score, so the earliest item of maximal score is kept.
   */
  function BestSoFar(text: string, items: seq<KnowledgeItem>): (p: Pick)
    ensures forall j :: 0 <= j < |items| ==> Score(text, items[j]) <= p.score
    ensures p.best.None? <==> forall j :: 0 <= j < |items| ==> Score(text, items[j]) == 0
    ensures p.best.None? ==> p.score == 0
    ensures p.best.Some? ==>
      p.best.value < |items| && p.score > 0 && Score(text, items[p.best.value]) == p.score
      && forall j :: 0 <= j < p.best.value ==> Score(text, items[j]) < p.score
  {
    if items == [] then Pick(None, 0)
    else
      var p := BestSoFar(text, items[..|items| - 1]);
      var s := Score(text, items[|items| - 1]);
      assert forall j :: 0 <= j < |items| - 1 ==> items[..|items| - 1][j] == items[j];
      if s > p.score then Pick(Some(|items| - 1), s) else p
  }

  /** The item findBestResponse returns, or None for null. */
  function BestResponse(text: string, items: seq<KnowledgeItem>): Option<KnowledgeItem> {
    match BestSoFar(text, items).best
    case None => None
    case Some(i) => Some(items[i])
  }

  /** findBestResponse */
  method FindBestResponse(text: string, items: seq<KnowledgeItem>) returns (best: Option<KnowledgeItem>)
    ensures best == BestResponse(text, items)
    ensures best.None? <==> forall j :: 0 <= j < |items| ==> Score(text, items[j]) == 0
  {
    var normalized := Lower(text);
    best := None;
    var bestScore: nat := 0;
    ghost var bestIndex: Option<nat> := None;
    for k := 0 to |items|
      invariant BestSoFar(text, items[..k]) == Pick(bestIndex, bestScore)
      invariant best == (match bestIndex case None => None case Some(i) => Some(items[i]))
      invariant bestIndex.Some? ==> bestIndex.value < k
    {
      assert items[..k + 1][..k] == items[..k];
      var score := Hits(normalized, items[k].keywords);
      if score > bestScore {
        best := Some(items[k]);
        bestScore := score;
        bestIndex := Some(k);
      }
    }
    assert items[..|items|] == items;
    if bestScore == 0 {
      best := None;
    }
  }

  lemma {:induction false} BestSoFarByScores(t1: string, t2: string, items: seq<KnowledgeItem>)
    requires forall j :: 0 <= j < |items| ==> Score(t1, items[j]) == Score(t2, items[j])
    ensures BestSoFar(t1, items) == BestSoFar(t2, items)
  {
    if items != [] {
      var init := items[..|items| - 1];
      assert forall j :: 0 <= j < |init| ==> init[j] == items[j];
      BestSoFarByScores(t1, t2, init);
    }
  }

  /** The message's letter case does not matter: it is lowercased before matching. */
  lemma {:induction false} BestResponseIgnoresCase(text: string, items: seq<KnowledgeItem>)
    ensures BestResponse(Lower(text), items) == BestResponse(text, items)
  {
    LowerIdempotent(text);
    BestSoFarByScores(Lower(text), text, items);
  }

  /** A keyword with a lowercase letter absent from the message cannot match. */
  lemma {:induction false} MissesWithout(normalized: string, kw: string, k: nat)
    requires k < |kw| && 'a' <= kw[k] <= 'z' && kw[k] !in normalized
    ensures !Contains(normalized, Lower(kw))
  {
    ContainedCharsOccur(normalized, Lower(kw), k);
  }

  /** "ali" does not occur in "email", though each of its letters does. */
  lemma {:induction false} AliMissesEmail()
    ensures !Contains("email", Lower("ali"))
  {
    var m := "email";
    assert Lower("ali") == "ali";
    ContainsIff(m, "ali");
    forall i: nat ensures !OccursAt(m, "ali", i) {
      if i == 2 {
        assert m[2..5][1] != 'l';
      } else if i < 3 {
        assert m[i..i + 3][0] != 'a';
      }
    }
  }

  /** "ml" does not occur in "email": its "m" is followed by "a". */
  lemma {:induction false} MlMissesEmail()
    ensures !Contains("email", Lower("ml"))
  {
    var m := "email";
    assert Lower("ml") == "ml";
    ContainsIff(m, "ml");
    forall i: nat ensures !OccursAt(m, "ml", i) {
      if i == 1 {
        assert m[1..3][1] != 'l';
      } else if i < 4 {
        assert m[i..i + 2][0] != 'm';
      }
    }
  }

  /** No keyword of the cloud item occurs in "email". */
  lemma {:induction false} EmailMissesCloud()
    ensures Hits("email", CloudKeywords) == 0
  {
    var m := "email";
    MissesWithout(m, "cloud", 0);
    MissesWithout(m, "azure", 1);
    MissesWithout(m, "aws", 1);
    MissesWithout(m, "migration", 2);
    AliMissesEmail();
    HitsZeroIff(m, CloudKeywords);
  }

  /** Of the AI item's keywords only "ai" occurs in "email". */
  lemma {:induction false} EmailHitsAI()
    ensures Hits("email", AIKeywords) == 1
  {
    var m := "email";
    assert Lower("ai") == "ai" && m[2..4] == "ai";
    ContainsAt(m, "ai", 2);
    MlMissesEmail();
    MissesWithout(m, "genai", 0);
    MissesWithout(m, "governance", 0);
    MissesWithout(m, "automation", 1);
    HitsOne(m, AIKeywords, 0);
  }

  lemma {:induction false} EmailMissesCost()
    ensures Hits("email", CostKeywords) == 0
  {
    var m := "email";
    MissesWithout(m, "cost", 0);
    MissesWithout(m, "efficiency", 1);
    MissesWithout(m, "optimize", 0);
    MissesWithout(m, "roi", 0);
    HitsZeroIff(m, CostKeywords);
  }

  lemma {:induction false} EmailMissesTeam()
    ensures Hits("email", TeamKeywords) == 0
  {
    var m := "email";
    MissesWithout(m, "team", 0);
    MissesWithout(m, "leadership", 3);
    MissesWithout(m, "coaching", 0);
    MissesWithout(m, "culture", 0);
    MissesWithout(m, "agile", 1);
    HitsZeroIff(m, TeamKeywords);
  }

  lemma {:induction false} EmailMissesBrand()
    ensures Hits("email", BrandKeywords) == 0
  {
    var m := "email";
    assert '4' !in m;
    ContainedCharsOccur(m, Lower("4everinbeta"), 0);
    MissesWithout(m, "beta", 0);
    MissesWithout(m, "nom de plume", 0);
    MissesWithout(m, "brand", 0);
    HitsZeroIff(m, BrandKeywords);
  }

  /** Of the contact item's keywords only "email" occurs in "email". */
  lemma {:induction false} EmailHitsContact()
    ensures Hits("email", ContactKeywords) == 1
  {
    var m := "email";
    assert Lower(m) == m && m[0..5] == m;
    ContainsAt(m, m, 0);
    MissesWithout(m, "contact", 0);
    MissesWithout(m, "connect", 0);
    MissesWithout(m, "reach", 0);
    HitsOne(m, ContactKeywords, 1);
  }

  /** The six scores of "email": 0, 1, 0, 0, 0, 1. */
  lemma {:induction false} EmailScores()
    ensures |Knowledge| == 6
    ensures Score("email", Knowledge[0]) == 0 && Score("email", Knowledge[1]) == 1
    ensures Score("email", Knowledge[2]) == 0 && Score("email", Knowledge[3]) == 0
    ensures Score("email", Knowledge[4]) == 0 && Score("email", Knowledge[5]) == 1
  {
    assert Lower("email") == "email";
    EmailMissesCloud();
    EmailHitsAI();
    EmailMissesCost();
    EmailMissesTeam();
    EmailMissesBrand();
    EmailHitsContact();
  }

  /** The kept item is the first one whose score is positive and no smaller than any other. */
  lemma {:induction false} FirstMaximalIsKept(text: string, items: seq<KnowledgeItem>, a: nat)
    requires a < |items| && Score(text, items[a]) > 0
    requires forall j :: 0 <= j < a ==> Score(text, items[j]) < Score(text, items[a])
    requires forall j :: a < j < |items| ==> Score(text, items[j]) <= Score(text, items[a])
    ensures BestSoFar(text, items).best == Some(a)
  {
    var p := BestSoFar(text, items);
    var i := p.best.value;
    assert Score(text, items[i]) == p.score >= Score(text, items[a]);
  }

  /**
   * "email" matches the AI item ("ai" occurs in it) and the contact item
   * with one keyword each; the tie goes to the earlier AI item.
   */
  lemma {:induction false} EmailPicksAIItem()
    ensures BestSoFar("email", Knowledge).best == Some(1)
    ensures BestResponse("email", Knowledge) == Some(Knowledge[1])
  {
    EmailScores();
    SecondOfSixIsKept("email", Knowledge);
  }

  /** Six items scoring 0, 1, 0, 0, 0, 1: the second item is kept. */
  lemma {:induction false} SecondOfSixIsKept(text: string, items: seq<KnowledgeItem>)
    requires |items| == 6 && Score(text, items[0]) == 0 && Score(text, items[1]) == 1
    requires Score(text, items[2]) == 0 && Score(text, items[3]) == 0
    requires Score(text, items[4]) == 0 && Score(text, items[5]) == 1
    ensures BestSoFar(text, items).best == Some(1)
    ensures BestResponse(text, items) == Some(items[1])
  {
    forall j | 1 < j < |items| ensures Score(text, items[j]) <= 1 {
      assert j in {2, 3, 4, 5};
    }
    FirstMaximalIsKept(text, items, 1);
  }

  /**
   * reply's choice: the matched item's response when it is a non-empty
   * string (the `||` falls through on ""), else the fallback at the drawn
   * index Math.floor(Math.random() * 3).
   */
  function ReplyText(best: Option<KnowledgeItem>, pick: nat): (r: string)
    requires pick < |FallbackResponses|
    ensures best.Some? && best.value.response != "" ==> r == best.value.response
    ensures best.None? ==> r in FallbackResponses
  {
    if best.Some? && best.value.response != "" then best.value.response else FallbackResponses[pick]
  }

  /** Every response is non-empty and differs from the fallbacks. */
  ghost predicate DistinctResponses(items: seq<KnowledgeItem>) {
    forall i :: 0 <= i < |items| ==> items[i].response != "" && items[i].response !in FallbackResponses
  }

  lemma {:induction false} KnowledgeHasDistinctResponses()
    ensures DistinctResponses(Knowledge)
  {
  }

  /**
   * A match replies with its own response; the reply is a fallback exactly
   * when nothing matched.
   */
  lemma {:induction false} ReplyChoice(text: string, items: seq<KnowledgeItem>, pick: nat)
    requires pick < |FallbackResponses| && DistinctResponses(items)
    ensures var best := BestResponse(text, items);
      (best.Some? ==> ReplyText(best, pick) == best.value.response && best.value in items)
      && (best.None? <==> ReplyText(best, pick) in FallbackResponses)
  {
    var best := BestResponse(text, items);
    if best.Some? {
      var i := BestSoFar(text, items).best.value;
      assert best.value == items[i];
    }
  }

  // ---------------------------------------------------------------- widget

  datatype Sender = Bot | User

  datatype Message = Message(sender: Sender, text: string)

  /** expanded.toString() */
  function BoolString(b: bool): string {
    if b then "true" else "false"
  }

  class BrandChat {
    /** The panel has the is-open class. */
    var isOpen: bool
    /** The toggle button's aria-expanded attribute. */
    var ariaExpanded: string
    /** The bubbles in the messages container, oldest first. */
    var messages: seq<Message>
    /** The text box's value. */
    var input: string
    /** Bot replies scheduled by setTimeout and not yet shown, oldest first. */
    var pending: seq<string>

    /** The knowledge base the widget matches against. */
    const knowledge: seq<KnowledgeItem>

    /** The toggle button reports the panel's state. */
    predicate Valid()
      reads this
    {
      ariaExpanded == BoolString(isOpen)
    }

    /** The widget starts closed, with aria-expanded "false" and the greeting shown. */
    constructor()
      ensures Valid() && !isOpen && knowledge == Knowledge
      ensures messages == [Message(Bot, Greeting)] && input == "" && pending == []
    {
      knowledge := Knowledge;
      isOpen := false;
      ariaExpanded := "false";
      messages := [];
      input := "";
      pending := [];
      new;
      AddMessage(Bot, Greeting);
    }

    /** toggle: flip the open state and mirror it in aria-expanded. */
    method Toggle()
      modifies this
      ensures isOpen == !old(isOpen) && Valid()
      ensures messages == old(messages) && input == old(input) && pending == old(pending)
    {
      isOpen := !isOpen;
      ariaExpanded := BoolString(isOpen);
    }

    /** addMessage: append one bubble. */
    method AddMessage(sender: Sender, text: string)
      modifies this
      ensures messages == old(messages) + [Message(sender, text)]
      ensures isOpen == old(isOpen) && ariaExpanded == old(ariaExpanded)
      ensures input == old(input) && pending == old(pending)
    {
      messages := messages + [Message(sender, text)];
    }

    /** reply: schedule the chosen response; the bubble appears when the timer fires. */
    method Reply(text: string, pick: nat)
      requires pick < |FallbackResponses|
      modifies this
      ensures pending == old(pending) + [ReplyText(BestResponse(text, knowledge), pick)]
      ensures messages == old(messages) && isOpen == old(isOpen) && ariaExpanded == old(ariaExpanded)
      ensures input == old(input)
    {
      var best := FindBestResponse(text, knowledge);
      pending := pending + [ReplyText(best, pick)];
    }

    /**
     * handleSubmit: a blank or whitespace-only box changes nothing (and is
     * not cleared); otherwise the trimmed text is logged as one user
     * message, a reply is scheduled and the box is cleared.
     */
    method HandleSubmit(pick: nat)
      requires pick < |FallbackResponses|
      modifies this
      ensures var value := Trim(old(input), IsJsSpace);
        if value == [] then
          messages == old(messages) && input == old(input) && pending == old(pending)
        else
          messages == old(messages) + [Message(User, value)] && input == ""
          && pending == old(pending) + [ReplyText(BestResponse(value, knowledge), pick)]
      ensures isOpen == old(isOpen) && ariaExpanded == old(ariaExpanded)
    {
      var value := Trim(input, IsJsSpace);
      if value == [] {
        return;
      }
      AddMessage(User, value);
      Reply(value, pick);
      input := "";
    }

    /** The setTimeout callback of the oldest scheduled reply: show it as a bot message. */
    method DeliverReply()
      requires pending != []
      modifies this
      ensures messages == old(messages) + [Message(Bot, old(pending)[0])] && pending == old(pending)[1..]
      ensures isOpen == old(isOpen) && ariaExpanded == old(ariaExpanded) && input == old(input)
    {
      var response := pending[0];
      pending := pending[1..];
      AddMessage(Bot, response);
    }
  }

  /** Toggling twice restores the open state and the attribute, and touches nothing else. */
  method ToggleTwice(chat: BrandChat)
    requires chat.Valid()
    modifies chat
    ensures chat.isOpen == old(chat.isOpen) && chat.ariaExpanded == old(chat.ariaExpanded)
    ensures chat.messages == old(chat.messages) && chat.input == old(chat.input) && chat.pending == old(chat.pending)
  {
    chat.Toggle();
    chat.Toggle();
  }
}
