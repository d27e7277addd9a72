/**
 Reading an escrow event type out of a raw contract event: the candidates (a direct type and the topics)
 are joined by blanks, upper-cased and searched for keywords in a fixed order.
 */
module EventClassifier {
  import opened Wrappers
  import opened EventTypes
  import opened UpperCase

  function Join(parts: seq<string>): string {
    if |parts| == 0 then ""
    else if |parts| == 1 then parts[0]
    else parts[0] + " " + Join(parts[1..])
  }

  predicate OccursAt(s: string, keyword: string, i: nat) {
    i + |keyword| <= |s| && s[i..i + |keyword|] == keyword
  }

  predicate Includes(s: string, keyword: string) {
    exists i: nat :: i <= |s| && OccursAt(s, keyword, i)
  }

  /** `direct` is absent when the raw event carries no type, or one that is not a text. */
  function Candidates(direct: Option<string>, topics: seq<string>): seq<string> {
    (if direct.Some? then [direct.value] else []) + topics
  }

  function ResolveEventType(direct: Option<string>, topics: seq<string>): Option<EventType> {
    var text := ToUpper(Join(Candidates(direct, topics)));
    if Includes(text, "ESCROW_CREATED") || Includes(text, "INITIALIZE") || Includes(text, "CREATED")
    then Some(EscrowCreated)
    else if Includes(text, "ESCROW_REFUNDED") || Includes(text, "REFUND") then Some(EscrowRefunded)
    else if Includes(text, "ESCROW_FUNDED") || Includes(text, "FUND") then Some(EscrowFunded)
    else if Includes(text, "ESCROW_RELEASED") || Includes(text, "RELEASE") then Some(EscrowReleased)
    else if Includes(text, "ESCROW_CANCELLED") || Includes(text, "CANCEL") then Some(EscrowCancelled)
    else if Includes(text, "ESCROW_DISPUTED") || Includes(text, "DISPUTE") then Some(EscrowDisputed)
    else None
  }

  // ---- keywords never span a join ------------------------------------------------------------------

  /** Some single candidate carries the keyword, in any letter case. */
  ghost predicate Mentions(candidates: seq<string>, keyword: string) {
    exists k :: 0 <= k < |candidates| && Includes(ToUpper(candidates[k]), keyword)
  }

  predicate IsKeyword(keyword: string) {
    keyword != "" && ' ' !in keyword
  }

  lemma IncludesWider(a: string, s: string, b: string, keyword: string)
    requires Includes(s, keyword)
    ensures Includes(a + s + b, keyword)
  {
    var i: nat :| i <= |s| && OccursAt(s, keyword, i);
    assert (a + s + b)[|a| + i..|a| + i + |keyword|] == s[i..i + |keyword|];
    assert OccursAt(a + s + b, keyword, |a| + i);
  }

  lemma NoBlankInside(s: string, keyword: string, i: nat, blank: nat)
    requires IsKeyword(keyword) && OccursAt(s, keyword, i)
    requires blank < |s| && s[blank] == ' '
    ensures i + |keyword| <= blank || blank < i
  {
  }

  lemma NotAcrossBlank(a: string, b: string, keyword: string)
    requires IsKeyword(keyword)
    ensures Includes(a + " " + b, keyword) <==> Includes(a, keyword) || Includes(b, keyword)
  {
    var s := a + " " + b;
    if Includes(s, keyword) {
      var i: nat :| i <= |s| && OccursAt(s, keyword, i);
      var end := i + |keyword|;
      NoBlankInside(s, keyword, i, |a|);
      if end <= |a| {
        assert a[i..end] == s[i..end];
        assert OccursAt(a, keyword, i);
      } else {
        var j := i - |a| - 1;
        assert b[j..j + |keyword|] == s[i..end];
        assert OccursAt(b, keyword, j);
      }
    }
    if Includes(a, keyword) {
      IncludesWider("", a, " " + b, keyword);
      assert "" + a + (" " + b) == s;
    }
    if Includes(b, keyword) {
      IncludesWider(a + " ", b, "", keyword);
      assert a + " " + b + "" == s;
    }
  }

  lemma BlankStays()
    ensures ToUpper(" ") == " "
  {
    assert " "[1..] == "";
  }

  lemma {:induction false} JoinMentions(candidates: seq<string>, keyword: string)
    requires IsKeyword(keyword)
    ensures Includes(ToUpper(Join(candidates)), keyword) <==> Mentions(candidates, keyword)
  {
    if |candidates| >= 2 {
      var head, tail := candidates[0], candidates[1..];
      JoinMentions(tail, keyword);
      UpperOfConcat(head + " ", Join(tail));
      UpperOfConcat(head, " ");
      BlankStays();
      NotAcrossBlank(ToUpper(head), ToUpper(Join(tail)), keyword);
      if Mentions(tail, keyword) {
        var k :| 0 <= k < |tail| && Includes(ToUpper(tail[k]), keyword);
        assert candidates[k + 1] == tail[k];
      }
      if Mentions(candidates, keyword) && !Includes(ToUpper(head), keyword) {
        var k :| 0 <= k < |candidates| && Includes(ToUpper(candidates[k]), keyword);
        assert tail[k - 1] == candidates[k];
      }
    }
  }

  // ---- the classification, told by candidates alone --------------------------------------------------

  /** The first class, in order of precedence, of which some candidate mentions a keyword. */
  ghost function ClassOf(candidates: seq<string>): Option<EventType> {
    if Mentions(candidates, "INITIALIZE") || Mentions(candidates, "CREATED") then Some(EscrowCreated)
    else if Mentions(candidates, "REFUND") then Some(EscrowRefunded)
    else if Mentions(candidates, "FUND") then Some(EscrowFunded)
    else if Mentions(candidates, "RELEASE") then Some(EscrowReleased)
    else if Mentions(candidates, "CANCEL") then Some(EscrowCancelled)
    else if Mentions(candidates, "DISPUTE") then Some(EscrowDisputed)
    else None
  }

  lemma SliceOfSlice(s: string, lo: nat, hi: nat, from: nat, to: nat)
    requires lo <= hi <= |s| && from <= to <= hi - lo
    ensures s[lo..hi][from..to] == s[lo + from..lo + to]
  {
    forall k | 0 <= k < to - from ensures s[lo..hi][from..to][k] == s[lo + from..lo + to][k] {
      assert s[lo..hi][from..to][k] == s[lo..hi][from + k] == s[lo + from + k];
    }
  }

  lemma LongImpliesShort(s: string, long: string, from: nat, short: string)
    requires from + |short| <= |long| && long[from..from + |short|] == short
    requires Includes(s, long)
    ensures Includes(s, short)
  {
    var i: nat :| i <= |s| && OccursAt(s, long, i);
    assert s[i + from..i + from + |short|] == s[i..i + |long|][from..from + |short|] by {
      SliceOfSlice(s, i, i + |long|, from, from + |short|);
    }
    assert OccursAt(s, short, i + from);
  }

  lemma LongKeywords(s: string)
    ensures Includes(s, "ESCROW_CREATED") ==> Includes(s, "CREATED")
    ensures Includes(s, "ESCROW_REFUNDED") ==> Includes(s, "REFUND")
    ensures Includes(s, "ESCROW_FUNDED") ==> Includes(s, "FUND")
    ensures Includes(s, "ESCROW_RELEASED") ==> Includes(s, "RELEASE")
    ensures Includes(s, "ESCROW_CANCELLED") ==> Includes(s, "CANCEL")
    ensures Includes(s, "ESCROW_DISPUTED") ==> Includes(s, "DISPUTE")
  {
    hide Includes;
    Prefixed(s, "CREATED", "");
    Prefixed(s, "REFUND", "ED");
    Prefixed(s, "FUND", "ED");
    Prefixed(s, "RELEASE", "D");
    Prefixed(s, "CANCEL", "LED");
    Prefixed(s, "DISPUTE", "D");
    assert "ESCROW_" + "CREATED" + "" == "ESCROW_CREATED";
    assert "ESCROW_" + "REFUND" + "ED" == "ESCROW_REFUNDED";
    assert "ESCROW_" + "FUND" + "ED" == "ESCROW_FUNDED";
    assert "ESCROW_" + "RELEASE" + "D" == "ESCROW_RELEASED";
    assert "ESCROW_" + "CANCEL" + "LED" == "ESCROW_CANCELLED";
    assert "ESCROW_" + "DISPUTE" + "D" == "ESCROW_DISPUTED";
  }

  lemma Prefixed(s: string, short: string, rest: string)
    ensures Includes(s, "ESCROW_" + short + rest) ==> Includes(s, short)
  {
    if Includes(s, "ESCROW_" + short + rest) {
      LongImpliesShort(s, "ESCROW_" + short + rest, 7, short);
    }
  }

  /** The joined text decides exactly as the candidates do one by one: no keyword arises across a join. */
  lemma ResolvedByCandidates(direct: Option<string>, topics: seq<string>)
    ensures ResolveEventType(direct, topics) == ClassOf(Candidates(direct, topics))
  {
    hide Includes, Mentions, ToUpper, Join;
    var c := Candidates(direct, topics);
    LongKeywords(ToUpper(Join(c)));
    JoinMentions(c, "INITIALIZE");
    JoinMentions(c, "CREATED");
    JoinMentions(c, "REFUND");
    JoinMentions(c, "FUND");
    JoinMentions(c, "RELEASE");
    JoinMentions(c, "CANCEL");
    JoinMentions(c, "DISPUTE");
  }

  lemma MentionsBySet(a: seq<string>, b: seq<string>, keyword: string)
    requires forall s :: s in a ==> s in b
    ensures Mentions(a, keyword) ==> Mentions(b, keyword)
  {
    if Mentions(a, keyword) {
      var k :| 0 <= k < |a| && Includes(ToUpper(a[k]), keyword);
      assert a[k] in b;
      var j :| 0 <= j < |b| && b[j] == a[k];
    }
  }

  lemma MentionsAll(a: seq<string>, b: seq<string>)
    requires forall s :: s in a ==> s in b
    ensures Mentions(a, "INITIALIZE") ==> Mentions(b, "INITIALIZE")
    ensures Mentions(a, "CREATED") ==> Mentions(b, "CREATED")
    ensures Mentions(a, "REFUND") ==> Mentions(b, "REFUND")
    ensures Mentions(a, "FUND") ==> Mentions(b, "FUND")
    ensures Mentions(a, "RELEASE") ==> Mentions(b, "RELEASE")
    ensures Mentions(a, "CANCEL") ==> Mentions(b, "CANCEL")
    ensures Mentions(a, "DISPUTE") ==> Mentions(b, "DISPUTE")
  {
    hide Mentions;
    MentionsBySet(a, b, "INITIALIZE");
    MentionsBySet(a, b, "CREATED");
    MentionsBySet(a, b, "REFUND");
    MentionsBySet(a, b, "FUND");
    MentionsBySet(a, b, "RELEASE");
    MentionsBySet(a, b, "CANCEL");
    MentionsBySet(a, b, "DISPUTE");
  }

  /** Only which topics occur matters: order and repetition of the topics change nothing. */
  lemma TopicOrderIrrelevant(direct: Option<string>, topics: seq<string>, other: seq<string>)
    requires forall t :: t in topics <==> t in other
    ensures ResolveEventType(direct, topics) == ResolveEventType(direct, other)
  {
    hide Mentions, ResolveEventType;
    ResolvedByCandidates(direct, topics);
    ResolvedByCandidates(direct, other);
    MentionsAll(Candidates(direct, topics), Candidates(direct, other));
    MentionsAll(Candidates(direct, other), Candidates(direct, topics));
  }

  /** The precedence of a classification, from none (0) to created (6). */
  function Precedence(t: Option<EventType>): nat {
    match t
    case None => 0
    case Some(EscrowDisputed) => 1
    case Some(EscrowCancelled) => 2
    case Some(EscrowReleased) => 3
    case Some(EscrowFunded) => 4
    case Some(EscrowRefunded) => 5
    case Some(EscrowCreated) => 6
  }

  /** Letter case does not matter: topics that are alike in upper case classify alike. */
  lemma LetterCaseIrrelevant(direct: Option<string>, topics: seq<string>, other: seq<string>)
    requires |topics| == |other| && forall i :: 0 <= i < |topics| ==> ToUpper(topics[i]) == ToUpper(other[i])
    ensures ResolveEventType(direct, topics) == ResolveEventType(direct, other)
  {
    hide Includes, ToUpper, ResolveEventType;
    ResolvedByCandidates(direct, topics);
    ResolvedByCandidates(direct, other);
    var c, d := Candidates(direct, topics), Candidates(direct, other);
    assert forall k :: 0 <= k < |c| ==> ToUpper(c[k]) == ToUpper(d[k]);
    forall keyword ensures Mentions(c, keyword) <==> Mentions(d, keyword) {
      SameMentions(c, d, keyword);
    }
  }

  lemma SameMentions(c: seq<string>, d: seq<string>, keyword: string)
    requires |c| == |d| && forall k :: 0 <= k < |c| ==> ToUpper(c[k]) == ToUpper(d[k])
    ensures Mentions(c, keyword) <==> Mentions(d, keyword)
  {
    hide Includes, ToUpper;
    if Mentions(c, keyword) {
      var k :| 0 <= k < |c| && Includes(ToUpper(c[k]), keyword);
      assert Includes(ToUpper(d[k]), keyword);
    }
    if Mentions(d, keyword) {
      var k :| 0 <= k < |d| && Includes(ToUpper(d[k]), keyword);
      assert Includes(ToUpper(c[k]), keyword);
    }
  }

  /** Further topics can only move the classification up. */
  lemma MoreTopicsMoveUp(direct: Option<string>, topics: seq<string>, more: seq<string>)
    requires forall t :: t in topics ==> t in more
    ensures Precedence(ResolveEventType(direct, topics)) <= Precedence(ResolveEventType(direct, more))
  {
    hide Mentions, ResolveEventType;
    ResolvedByCandidates(direct, topics);
    ResolvedByCandidates(direct, more);
    MentionsAll(Candidates(direct, topics), Candidates(direct, more));
  }

  /**
   A refund is never read as a funding although its name contains that word: funded means that some
   candidate says FUND and that none, anywhere, says REFUND.
   */
  lemma RefundNeverFunded(direct: Option<string>, topics: seq<string>)
    ensures var c := Candidates(direct, topics);
      && (Mentions(c, "REFUND") ==> Mentions(c, "FUND"))
      && (Mentions(c, "REFUND") ==> ResolveEventType(direct, topics) in {Some(EscrowRefunded), Some(EscrowCreated)})
      && (ResolveEventType(direct, topics) == Some(EscrowFunded)
          <==> Mentions(c, "FUND") && !Mentions(c, "REFUND") && !Mentions(c, "CREATED") && !Mentions(c, "INITIALIZE"))
  {
    hide ResolveEventType, Includes;
    var c := Candidates(direct, topics);
    ResolvedByCandidates(direct, topics);
    if Mentions(c, "REFUND") {
      var k :| 0 <= k < |c| && Includes(ToUpper(c[k]), "REFUND");
      LongImpliesShort(ToUpper(c[k]), "REFUND", 2, "FUND");
    }
  }

  // ---- where the keywords may stand -------------------------------------------------------------------

  /** The direct type counts when it is a text, and every topic counts; nothing else does. */
  lemma MentionedExactly(direct: Option<string>, topics: seq<string>, keyword: string)
    ensures Mentions(Candidates(direct, topics), keyword) <==>
      || (direct.Some? && Includes(ToUpper(direct.value), keyword))
      || exists t :: t in topics && Includes(ToUpper(t), keyword)
  {
    hide Includes, ToUpper;
    var c := Candidates(direct, topics);
    if Mentions(c, keyword) {
      var k :| 0 <= k < |c| && Includes(ToUpper(c[k]), keyword);
      assert c[k] in topics || (direct.Some? && c[k] == direct.value);
    }
    if direct.Some? {
      assert c[0] == direct.value;
    }
    if t :| t in topics && Includes(ToUpper(t), keyword) {
      var k :| 0 <= k < |topics| && topics[k] == t;
      assert c[if direct.Some? then k + 1 else k] == t;
    }
  }

  /** The type of a single topic, by its words alone: the earliest line that applies. */
  lemma OneTopic(topic: string)
    ensures var text := ToUpper(topic);
      var r := ResolveEventType(None, [topic]);
      && (r == Some(EscrowCreated) <==> Includes(text, "INITIALIZE") || Includes(text, "CREATED"))
      && (Includes(text, "REFUND") ==> r in {Some(EscrowCreated), Some(EscrowRefunded)})
      && (Includes(text, "FUND") ==> r in {Some(EscrowCreated), Some(EscrowRefunded), Some(EscrowFunded)})
      && (r == Some(EscrowRefunded) ==> Includes(text, "REFUND"))
      && (r == Some(EscrowFunded) ==> Includes(text, "FUND"))
      && (r == Some(EscrowReleased) ==> Includes(text, "RELEASE") && !Includes(text, "FUND"))
      && (r == Some(EscrowCancelled) ==> Includes(text, "CANCEL") && !Includes(text, "RELEASE"))
      && (r == Some(EscrowDisputed) ==> Includes(text, "DISPUTE") && !Includes(text, "CANCEL"))
      && (r == None ==> !Includes(text, "FUND") && !Includes(text, "RELEASE") && !Includes(text, "CANCEL")
                        && !Includes(text, "DISPUTE"))
  {
    hide Includes, ToUpper;
    assert Join([topic]) == topic;
    assert Candidates(None, [topic]) == [topic];
    LongKeywords(ToUpper(topic));
  }
}
