/** The keyword intent classifier of backend/bot/intent_classifier.py: an
    ordered chain of substring rules over the lower-cased, stripped message,
    the first rule that matches deciding the label. */
module Intents {
  import opened Text
  import Patterns

  /** The nine labels `classify` returns. */
  datatype Intent = Address | Phone | Email | About | Join | Review | UnitPrice | Pricing | Unknown

  /** The label string of each intent. */
  function Label(i: Intent): string {
    match i
    case Address => "address"
    case Phone => "phone"
    case Email => "email"
    case About => "about"
    case Join => "join"
    case Review => "review"
    case UnitPrice => "unit_price"
    case Pricing => "pricing"
    case Unknown => "unknown"
  }

  /** The nine label strings are distinct, so the string `classify` returns
      names exactly one intent. */
  lemma LabelIdentifiesIntent(i: Intent, j: Intent)
    ensures Label(i) == Label(j) <==> i == j
  {
    if i != j {
      var a, b := Label(i), Label(j);
      assert a[0] != b[0] || a[1] != b[1] || |a| != |b|;
    }
  }

  const AddressKeys := ["address", "\U{5728}\U{54ea}", "location", "where"]
  const PhoneKeys := ["phone", "\U{96fb}\U{8a71}"]
  const EmailKeys := ["email", "mail"]
  const AboutKeys := ["about", "\U{4f60}\U{5011}\U{662f}\U{8ab0}", "\U{4ecb}\U{7d39}", "who are you"]
  const JoinKeys := ["member", "membership", "\U{52a0}\U{5165}", "\U{6703}\U{54e1}"]
  const ReviewKeys := ["review", "\U{8a55}\U{8ad6}", "\U{8a55}\U{50f9}"]
  const PricingKeys := ["botox", "dysport", "\U{50f9}\U{683c}", "price"]

  /** `re.search(r"(\d+)\s*units?", msg)` finds a match ending its digits at
      `i`: a digit, then whitespace, then "unit" (the optional "s" never
      decides whether there is a match). */
  predicate UnitMentionAt(t: string, i: nat) {
    i < |t| && IsDigit(t[i]) && OccursAt(t, "unit", Patterns.SpaceRunEnd(t, i + 1))
  }

  predicate HasUnitMention(t: string) {
    exists i: nat :: i < |t| && UnitMentionAt(t, i)
  }

  /** The rule chain on an already normalised message: the first group in
      the order address, phone, e-mail, about, join, review, unit mention,
      pricing that occurs decides the label. */
  function Rules(msg: string): (r: Intent)
    ensures var a, p, e := ContainsAny(msg, AddressKeys), ContainsAny(msg, PhoneKeys), ContainsAny(msg, EmailKeys);
      var ab, j, rv := ContainsAny(msg, AboutKeys), ContainsAny(msg, JoinKeys), ContainsAny(msg, ReviewKeys);
      var u, pr := HasUnitMention(msg), ContainsAny(msg, PricingKeys);
      && (r == Address <==> a)
      && (r == Phone <==> !a && p)
      && (r == Email <==> !a && !p && e)
      && (r == About <==> !a && !p && !e && ab)
      && (r == Join <==> !a && !p && !e && !ab && j)
      && (r == Review <==> !a && !p && !e && !ab && !j && rv)
      && (r == UnitPrice <==> !a && !p && !e && !ab && !j && !rv && u)
      && (r == Pricing <==> !a && !p && !e && !ab && !j && !rv && !u && pr)
      && (r == Unknown <==> !a && !p && !e && !ab && !j && !rv && !u && !pr)
  {
    if ContainsAny(msg, AddressKeys) then Address
    else if ContainsAny(msg, PhoneKeys) then Phone
    else if ContainsAny(msg, EmailKeys) then Email
    else if ContainsAny(msg, AboutKeys) then About
    else if ContainsAny(msg, JoinKeys) then Join
    else if ContainsAny(msg, ReviewKeys) then Review
    else if HasUnitMention(msg) then UnitPrice
    else if ContainsAny(msg, PricingKeys) then Pricing
    else Unknown
  }

  /** `classify`: lower-case and strip, then the rules. Every keyword starts
      and ends with a non-space character, so the strip never changes which
      rule fires: the label is the rule chain on the lower-cased message. */
  function Classify(message: string): (r: Intent)
    ensures r == Rules(Lower(message))
  {
    StripKeepsRules(Lower(message));
    Rules(Strip(Lower(message)))
  }

  /** Stripping a message never changes the rule that fires. */
  lemma StripKeepsRules(s: string)
    ensures Rules(Strip(s)) == Rules(s)
  {
    StripCutsSpace(s);
    var i, j :| && 0 <= i <= j <= |s| && Strip(s) == s[i..j]
      && (forall k :: 0 <= k < i ==> IsSpace(s[k]))
      && (forall k :: j <= k < |s| ==> IsSpace(s[k]));
    SameRulesOnSlice(s, i, j);
  }

  lemma SameRulesOnSlice(s: string, i: nat, j: nat)
    requires i <= j <= |s|
    requires forall k :: 0 <= k < i ==> IsSpace(s[k])
    requires forall k :: j <= k < |s| ==> IsSpace(s[k])
    ensures Rules(s[i..j]) == Rules(s)
  {
    KeysSurviveSlice(s, i, j, AddressKeys);
    KeysSurviveSlice(s, i, j, PhoneKeys);
    KeysSurviveSlice(s, i, j, EmailKeys);
    KeysSurviveSlice(s, i, j, AboutKeys);
    KeysSurviveSlice(s, i, j, JoinKeys);
    KeysSurviveSlice(s, i, j, ReviewKeys);
    KeysSurviveSlice(s, i, j, PricingKeys);
    UnitMentionSurvivesSlice(s, i, j);
  }

  /** A key that starts and ends with a non-space character. */
  predicate Trimmed(key: string) {
    key != [] && !IsSpace(key[0]) && !IsSpace(key[|key| - 1])
  }

  lemma SliceOfSlice(s: string, i: nat, j: nat, a: nat, b: nat)
    requires i <= j <= |s| && a <= b <= j - i
    ensures s[i..j][a..b] == s[i + a..i + b]
  {
    var u, v := s[i..j][a..b], s[i + a..i + b];
    assert |u| == |v|;
    forall m | 0 <= m < |u| ensures u[m] == v[m] {
      assert u[m] == s[i..j][a + m] == s[i + a + m];
    }
  }

  /** Cutting whitespace off both ends keeps every occurrence of a trimmed key. */
  lemma KeySurvivesSlice(s: string, i: nat, j: nat, key: string)
    requires i <= j <= |s| && Trimmed(key)
    requires forall k :: 0 <= k < i ==> IsSpace(s[k])
    requires forall k :: j <= k < |s| ==> IsSpace(s[k])
    ensures Contains(s[i..j], key) <==> Contains(s, key)
  {
    if Contains(s[i..j], key) {
      var p: nat :| p <= |s[i..j]| - |key| && OccursAt(s[i..j], key, p);
      KeyWidens(s, i, j, key, p);
    }
    if Contains(s, key) {
      var p: nat :| p <= |s| - |key| && OccursAt(s, key, p);
      KeyNarrows(s, i, j, key, p);
    }
  }

  lemma KeyWidens(s: string, i: nat, j: nat, key: string, p: nat)
    requires i <= j <= |s| && OccursAt(s[i..j], key, p)
    ensures OccursAt(s, key, i + p)
  {
    SliceOfSlice(s, i, j, p, p + |key|);
  }

  lemma KeyNarrows(s: string, i: nat, j: nat, key: string, p: nat)
    requires i <= j <= |s| && Trimmed(key) && OccursAt(s, key, p)
    requires forall k :: 0 <= k < i ==> IsSpace(s[k])
    requires forall k :: j <= k < |s| ==> IsSpace(s[k])
    ensures p >= i && OccursAt(s[i..j], key, p - i)
  {
    assert s[p] == key[0] && s[p + |key| - 1] == key[|key| - 1];
    assert i <= p && p + |key| <= j;
    SliceOfSlice(s, i, j, p - i, p - i + |key|);
  }

  lemma KeysSurviveSlice(s: string, i: nat, j: nat, keys: seq<string>)
    requires i <= j <= |s| && forall k :: 0 <= k < |keys| ==> Trimmed(keys[k])
    requires forall k :: 0 <= k < i ==> IsSpace(s[k])
    requires forall k :: j <= k < |s| ==> IsSpace(s[k])
    ensures ContainsAny(s[i..j], keys) <==> ContainsAny(s, keys)
  {
    forall k | 0 <= k < |keys|
      ensures Contains(s[i..j], keys[k]) <==> Contains(s, keys[k])
    {
      KeySurvivesSlice(s, i, j, keys[k]);
    }
  }

  /** A unit mention begins with a digit and ends with "unit", so it lies
      inside any slice that cuts off only whitespace. */
  lemma UnitMentionSurvivesSlice(s: string, i: nat, j: nat)
    requires i <= j <= |s|
    requires forall k :: 0 <= k < i ==> IsSpace(s[k])
    requires forall k :: j <= k < |s| ==> IsSpace(s[k])
    ensures HasUnitMention(s[i..j]) <==> HasUnitMention(s)
  {
    if HasUnitMention(s[i..j]) {
      var p: nat :| p < |s[i..j]| && UnitMentionAt(s[i..j], p);
      UnitMentionWidens(s, i, j, p);
    }
    if HasUnitMention(s) {
      var p: nat :| p < |s| && UnitMentionAt(s, p);
      UnitMentionNarrows(s, i, j, p);
    }
  }

  lemma UnitMentionWidens(s: string, i: nat, j: nat, p: nat)
    requires i <= j <= |s| && UnitMentionAt(s[i..j], p)
    ensures UnitMentionAt(s, i + p)
  {
    var t := s[i..j];
    var e := Patterns.SpaceRunEnd(t, p + 1);
    assert e + 4 <= |t| && t[e] == 'u';
    SpaceRunShift(s, i, j, p + 1);
    SliceOfSlice(s, i, j, e, e + 4);
    assert t[p] == s[i + p];
  }

  lemma UnitMentionNarrows(s: string, i: nat, j: nat, p: nat)
    requires i <= j <= |s| && UnitMentionAt(s, p)
    requires forall k :: 0 <= k < i ==> IsSpace(s[k])
    requires forall k :: j <= k < |s| ==> IsSpace(s[k])
    ensures p >= i && UnitMentionAt(s[i..j], p - i)
  {
    var e := Patterns.SpaceRunEnd(s, p + 1);
    assert OccursAt(s, "unit", e);
    assert !IsSpace(s[p]);
    assert i <= p;
    assert s[e + 3] == s[e..e + 4][3] == 't';
    assert !IsSpace(s[e + 3]);
    assert e + 4 <= j;
    MentionInSlice(s, i, j, p, e);
  }

  lemma MentionInSlice(s: string, i: nat, j: nat, p: nat, e: nat)
    requires i <= p && p < e && e + 4 <= j <= |s|
    requires IsDigit(s[p]) && e == Patterns.SpaceRunEnd(s, p + 1) && OccursAt(s, "unit", e)
    ensures UnitMentionAt(s[i..j], p - i)
  {
    var t, q := s[i..j], p - i;
    assert IsDigit(t[q]) by { assert t[q] == s[p]; }
    RunInSlice(s, i, j, p + 1, e);
    UnitInSlice(s, i, j, e);
    assert Patterns.SpaceRunEnd(t, q + 1) == e - i;
  }

  /** A whitespace run that ends inside the slice ends at the same place there. */
  lemma RunInSlice(s: string, i: nat, j: nat, a: nat, e: nat)
    requires i <= a <= e < j <= |s| && e == Patterns.SpaceRunEnd(s, a)
    ensures Patterns.SpaceRunEnd(s[i..j], a - i) == e - i
  {
    var t := s[i..j];
    forall k | a - i <= k < e - i ensures IsSpace(t[k]) {
      assert t[k] == s[i + k];
    }
    assert t[e - i] == s[e];
    SpaceRunIs(t, a - i, e - i);
  }

  lemma UnitInSlice(s: string, i: nat, j: nat, e: nat)
    requires i <= e && e + 4 <= j <= |s| && OccursAt(s, "unit", e)
    ensures OccursAt(s[i..j], "unit", e - i)
  {
    SliceOfSlice(s, i, j, e - i, e - i + 4);
  }

  /** The whitespace run from `a` ends at the first non-space at or after `a`. */
  lemma {:induction false} SpaceRunIs(t: string, a: nat, f: nat)
    requires a <= f < |t| && !IsSpace(t[f])
    requires forall k :: a <= k < f ==> IsSpace(t[k])
    ensures Patterns.SpaceRunEnd(t, a) == f
    decreases f - a
  {
    if a < f {
      SpaceRunIs(t, a + 1, f);
    }
  }

  /** The whitespace run after a position is the same in the slice, as long
      as it ends inside the slice. */
  lemma {:induction false} SpaceRunShift(s: string, i: nat, j: nat, q: nat)
    requires i <= j <= |s| && q <= j - i
    ensures var t, e := s[i..j], Patterns.SpaceRunEnd(s[i..j], q);
      e < |t| ==> Patterns.SpaceRunEnd(s, i + q) == i + e
    decreases j - i - q
  {
    var t := s[i..j];
    if q < |t| && IsSpace(t[q]) {
      SpaceRunShift(s, i, j, q + 1);
    }
  }

  /** An address keyword decides the label whatever else the message says. */
  lemma AddressDominates(message: string, k: nat)
    requires k < |AddressKeys| && Contains(Lower(message), AddressKeys[k])
    ensures Classify(message) == Address
  {
    assert ContainsAny(Lower(message), AddressKeys);
  }

  /** "mail" alone makes an e-mail question unless an address or phone key
      came first. */
  lemma MailMeansEmail(message: string)
    requires Contains(Lower(message), "mail")
    requires !ContainsAny(Lower(message), AddressKeys) && !ContainsAny(Lower(message), PhoneKeys)
    ensures Classify(message) == Email
  {
    assert EmailKeys[1] == "mail";
  }

  /** A message is a unit-price question exactly when it mentions a number
      before "unit" and none of the six keyword groups before that rule occurs. */
  lemma UnitMentionMeansUnitPrice(message: string)
    ensures var m := Lower(message);
      Classify(message) == UnitPrice <==>
        && HasUnitMention(m)
        && !ContainsAny(m, AddressKeys) && !ContainsAny(m, PhoneKeys) && !ContainsAny(m, EmailKeys)
        && !ContainsAny(m, AboutKeys) && !ContainsAny(m, JoinKeys) && !ContainsAny(m, ReviewKeys)
  {
    assert Classify(message) == Rules(Lower(message));
  }

  /** "How much for 20 Units?" mentions a unit count. */
  lemma ExampleUnitMention()
    ensures HasUnitMention(Lower("How much for 20 Units?"))
  {
    var s := "How much for 20 Units?";
    var l := Lower(s);
    assert s[14] == '0' && s[15] == ' ' && s[16] == 'U' && s[17] == 'n' && s[18] == 'i' && s[19] == 't';
    assert l[14] == '0' && l[15] == ' ' && l[16] == 'u' && l[17] == 'n' && l[18] == 'i' && l[19] == 't';
    assert Patterns.SpaceRunEnd(l, 16) == 16;
    assert Patterns.SpaceRunEnd(l, 15) == 16;
    assert l[16..20] == "unit";
    assert UnitMentionAt(l, 14);
  }

  /** "Where is your phone?" is an address question: the address rule comes first. */
  lemma ExampleWhereBeatsPhone()
    ensures Classify("Where is your phone?") == Address && Label(Classify("Where is your phone?")) == "address"
  {
    var l := Lower("Where is your phone?");
    assert l == "where is your phone?";
    assert l[..5] == "where" == AddressKeys[3];
    assert OccursAt(l, AddressKeys[3], 0);
    AddressDominates("Where is your phone?", 3);
  }
}
