/**
 * The notebook-checkpoint copy of the estimator (frontier_agent-checkpoint.py).
 * Its header, system message, question and `get_price` are those of
 * agente_frontera.py; only the words around each similar product and the
 * price the model is asked to continue are English.
 */
module FrontierCheckpoint {
  import opened Chat
  import Frontier
  import PriceParser

  /** The texts of the copy: those of agente_frontera.py with two of them in English. */
  const EnglishWording: Frontier.Wording :=
    Frontier.SpanishWording.(relatedTitle := "Potentially related product:", pricePrefix := "Price is $")

  /** `make_context` of the copy. */
  method MakeContext(similars: seq<string>, prices: seq<real>, fmt: real -> string) returns (message: string)
    ensures message == Frontier.Context(EnglishWording, similars, prices, fmt)
  {
    message := Frontier.MakeContext(EnglishWording, similars, prices, fmt);
  }

  /** `messages_for` of the copy. */
  function MessagesFor(description: string, similars: seq<string>, prices: seq<real>, fmt: real -> string): (r: seq<Message>)
    ensures |r| == 3
    ensures r[0] == Message("system", Frontier.SpanishWording.systemMessage)
    ensures r[1].role == "user"
    ensures r[2] == Message("assistant", "Price is $")
  {
    Frontier.MessagesFor(EnglishWording, description, similars, prices, fmt)
  }

  /** Each similar product is introduced in English, in order. */
  lemma EnglishBlocks(similars: seq<string>, prices: seq<real>, fmt: real -> string, i: nat)
    requires i < |similars| && i < |prices|
    ensures Frontier.Blocks(EnglishWording, similars, prices, fmt)[i]
         == "Potentially related product:\n" + similars[i] + "\nPrice is $" + fmt(prices[i]) + "\n\n"
  {
  }

  /** The two copies ask the same question in the same words, apart from the wording. */
  lemma SameConversationShape(description: string, similars: seq<string>, prices: seq<real>, fmt: real -> string)
    ensures var english := MessagesFor(description, similars, prices, fmt);
      var spanish := Frontier.MessagesFor(Frontier.SpanishWording, description, similars, prices, fmt);
      && english[0] == spanish[0]
      && english[1].role == spanish[1].role && english[2].role == spanish[2].role
      && (similars == [] || prices == [] ==> english[1] == spanish[1])
  {
    if similars == [] || prices == [] {
      Frontier.ContextOfNothing(EnglishWording, similars, prices, fmt);
      Frontier.ContextOfNothing(Frontier.SpanishWording, similars, prices, fmt);
    }
  }

  /** `price` of the copy: the number read from the reply to the English-worded prompt. */
  function Price(svc: Frontier.Services, description: string): real
  {
    Frontier.Price(EnglishWording, svc, description)
  }

  /** The copy's `get_price` reads a reply as the leftmost number once `$` and `,` are deleted, and 0 when there is none. */
  lemma PriceOfReply(svc: Frontier.Services, description: string)
    ensures var reply := PriceParser.Strip(Frontier.Reply(EnglishWording, svc, description));
      var m := PriceParser.Search(reply, 0);
      && (m.None? <==> PriceParser.NoWordStartsIn(reply, 0, |reply| + 1))
      && (m.None? ==> Price(svc, description) == 0.0)
      && (m.Some? ==> PriceParser.IsLeftmostMatch(reply, m.value)
                      && PriceParser.IsLongestWordAt(reply, m.value)
                      && Price(svc, description) == PriceParser.Value(m.value.token))
  {
    Frontier.PriceOfReply(EnglishWording, svc, description);
  }

  /** The two copies read the same reply as the same price. */
  lemma SameReadingOfReplies(english: Frontier.Services, spanish: Frontier.Services, description: string)
    requires Frontier.Reply(EnglishWording, english, description) == Frontier.Reply(Frontier.SpanishWording, spanish, description)
    ensures Price(english, description) == Frontier.Price(Frontier.SpanishWording, spanish, description)
  {
  }
}
