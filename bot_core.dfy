/** The chat responder of backend/bot/bot_core.py: three replies chosen by
    substring tests on the lower-cased input, the greeting test first. */
module Bot {
  import opened Text

  const Greeting := "Hello! Nice to meet you \U{1f60a}"
  const ServiceReply := "We offer botulinum toxin injection services. Please check the medical beauty section for pricing."
  const DefaultReply := "Hi! I am MonAgent \U{1f916}, currently under development~"

  const GreetingKeys := ["\U{4f60}\U{597d}", "hi"]
  const ServiceKeys := ["\U{8089}\U{6bd2}", "botox"]

  class ChatBot {
    /** Set once here and never written again. */
    const defaultReply: string

    constructor()
      ensures defaultReply == DefaultReply
    {
      defaultReply := DefaultReply;
    }

    /** `get_response`: the first matching test decides, the default otherwise. */
    function GetResponse(userInput: string): (reply: string)
      ensures var msg := Lower(userInput);
        && (ContainsAny(msg, GreetingKeys) ==> reply == Greeting)
        && (!ContainsAny(msg, GreetingKeys) && ContainsAny(msg, ServiceKeys) ==> reply == ServiceReply)
        && (!ContainsAny(msg, GreetingKeys) && !ContainsAny(msg, ServiceKeys) ==> reply == defaultReply)
    {
      var msg := Lower(userInput);
      if ContainsAny(msg, GreetingKeys) then Greeting
      else if ContainsAny(msg, ServiceKeys) then ServiceReply
      else defaultReply
    }

    /** A greeting wins over a service question: "hi" anywhere, even inside
        another word, is enough. */
    lemma GreetingWins(userInput: string)
      requires Contains(Lower(userInput), "hi") && Contains(Lower(userInput), "botox")
      ensures GetResponse(userInput) == Greeting
    {
      assert GreetingKeys[1] == "hi";
    }

    /** Upper case does not matter: the input is lower-cased before the tests. */
    lemma CaseIgnored(a: string, b: string)
      requires |a| == |b| && forall k :: 0 <= k < |a| ==> LowerChar(a[k]) == LowerChar(b[k])
      ensures GetResponse(a) == GetResponse(b)
    {
      assert Lower(a) == Lower(b);
    }

    /** "Which BOTOX brand?" is answered with the greeting: "hi" occurs
        inside "which". */
    lemma ExampleWhichBotox()
      ensures GetResponse("Which BOTOX brand?") == Greeting
    {
      var msg := Lower("Which BOTOX brand?");
      assert msg == "which botox brand?";
      assert msg[1..3] == "hi";
      assert OccursAt(msg, GreetingKeys[1], 1);
    }
  }
}
