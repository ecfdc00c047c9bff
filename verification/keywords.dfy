/** The shape shared by the three chatbot responders: an ordered list of
    keyword branches over the lower-cased message, first match wins, and a
    fixed reply when no branch matches. */
module Keywords {
  import opened Wrappers
  import opened Seqs
  import opened Text

  /** One branch: its reply is chosen when any of its keywords occurs in the lower-cased message.
      A branch without keywords never fires. The reply type is left open: a canned answer. */
  datatype Rule<R> = Rule(keywords: seq<string>, reply: R)

  predicate Fires<R>(rule: Rule<R>, lowered: string)
  {
    exists k | k in rule.keywords :: Includes(lowered, k)
  }

  /** Branch `i` answers: it fires and no earlier branch does. */
  ghost predicate FirstFiring<R>(rules: seq<Rule<R>>, lowered: string, i: int)
  {
    0 <= i < |rules| && Fires(rules[i], lowered) && forall j :: 0 <= j < i ==> !Fires(rules[j], lowered)
  }

  ghost predicate NoneFires<R>(rules: seq<Rule<R>>, lowered: string)
  {
    forall j :: 0 <= j < |rules| ==> !Fires(rules[j], lowered)
  }

  /** The reply to a message: the reply of the first branch that fires on the lower-cased message, else the fallback. */
  function Respond<R>(rules: seq<Rule<R>>, fallback: R, message: string): (r: R)
    ensures (exists i :: FirstFiring(rules, Lower(message), i) && r == rules[i].reply)
            || (NoneFires(rules, Lower(message)) && r == fallback)
  {
    var lowered := Lower(message);
    match FirstWhere(rules, rule => Fires(rule, lowered))
    case Some(i) => rules[i].reply
    case None => fallback
  }

  /** The branch that fires first answers. */
  lemma RespondFirstFiring<R>(rules: seq<Rule<R>>, fallback: R, message: string, i: int)
    requires FirstFiring(rules, Lower(message), i)
    ensures Respond(rules, fallback, message) == rules[i].reply
  {
  }

  /** With no branch firing, the fallback answers. */
  lemma RespondFallback<R>(rules: seq<Rule<R>>, fallback: R, message: string)
    requires NoneFires(rules, Lower(message))
    ensures Respond(rules, fallback, message) == fallback
  {
  }

  /** A branch that can fire at all: it has at least one keyword. */
  predicate Live<R>(rule: Rule<R>) { |rule.keywords| > 0 }

  lemma DeadNeverFires<R>(rule: Rule<R>, lowered: string)
    requires !Live(rule)
    ensures !Fires(rule, lowered)
  {
  }

  /** Every branch that can fire has its own reply, and none of them is the fallback. */
  ghost predicate DistinctReplies<R>(rules: seq<Rule<R>>, fallback: R)
  {
    && (forall i, j :: 0 <= i < j < |rules| && Live(rules[i]) && Live(rules[j]) ==> rules[i].reply != rules[j].reply)
    && (forall i :: 0 <= i < |rules| && Live(rules[i]) ==> rules[i].reply != fallback)
  }

  /** Replies are distinct when some numbering sends each branch's reply to the branch's position
      and the fallback to no live branch's position. */
  lemma DistinctBySlot<R>(rules: seq<Rule<R>>, fallback: R, slot: R -> int)
    requires forall i :: 0 <= i < |rules| && Live(rules[i]) ==> slot(rules[i].reply) == i
    requires forall i :: 0 <= i < |rules| && Live(rules[i]) ==> slot(fallback) != i
    ensures DistinctReplies(rules, fallback)
  {
    forall i, j | 0 <= i < j < |rules| && Live(rules[i]) && Live(rules[j])
      ensures rules[i].reply != rules[j].reply
    {
      assert slot(rules[i].reply) == i && slot(rules[j].reply) == j;
    }
  }

  /** With distinct replies the reply identifies the branch: reply `i` comes back exactly when branch `i` fires first. */
  lemma RespondIdentifiesBranch<R>(rules: seq<Rule<R>>, fallback: R, message: string, i: int)
    requires DistinctReplies(rules, fallback) && 0 <= i < |rules| && Live(rules[i])
    ensures Respond(rules, fallback, message) == rules[i].reply <==> FirstFiring(rules, Lower(message), i)
  {
    var lowered := Lower(message);
    if FirstFiring(rules, lowered, i) {
      RespondFirstFiring(rules, fallback, message, i);
    }
  }

  /** With distinct replies the fallback comes back exactly when no branch fires. */
  lemma RespondFallbackIff<R>(rules: seq<Rule<R>>, fallback: R, message: string)
    requires DistinctReplies(rules, fallback)
    ensures Respond(rules, fallback, message) == fallback <==> NoneFires(rules, Lower(message))
  {
  }

  /** The reply depends only on the lower-cased message. */
  lemma RespondIgnoresCase<R>(rules: seq<Rule<R>>, fallback: R, m1: string, m2: string)
    requires Lower(m1) == Lower(m2)
    ensures Respond(rules, fallback, m1) == Respond(rules, fallback, m2)
  {
  }

  lemma RespondToLowered<R>(rules: seq<Rule<R>>, fallback: R, message: string)
    ensures Respond(rules, fallback, Lower(message)) == Respond(rules, fallback, message)
  {
    LowerIdempotent(message);
  }

  /** A keyword fires whenever the message contains it. */
  lemma KeywordFires<R>(rule: Rule<R>, k: string, lowered: string)
    requires k in rule.keywords && Includes(lowered, k)
    ensures Fires(rule, lowered)
  {
  }

  /** A keyword containing a character the message lacks cannot occur in it. */
  lemma AbsentCharBlocks(s: string, p: string, c: char)
    requires c in p && c !in s
    ensures !Includes(s, p)
  {

  }
}
