/**
 * The retrieval-augmented estimator of agente_frontera.py: it builds a prompt
 * from the products most similar to a description and their prices, asks a
 * chat model for a price and reads the reply with PriceParser.GetPrice.
 *
 * The similarity search, the chat model and the `:.2f` rendering of a price
 * are parameters. The two copies of the agent differ only in some of the
 * fixed texts of the prompt, so the prompt builders take those texts as a
 * Wording.
 */
module Frontier {
  import opened Chat
  import Seqs
  import PriceParser

  /**
   * The fixed texts of the prompt: the header of the context, the system
   * message, the question, the words that introduce each similar product and
   * its price, and the price the model is asked to continue.
   */
  datatype Wording = Wording(
    contextHeader: string,
    systemMessage: string,
    question: string,
    relatedTitle: string,
    pricePrefix: string)

  /** The texts of agente_frontera.py. */
  const SpanishWording: Wording := Wording(
    "Para brindar algo de contexto, aquí hay algunos otros artículos que podrían ser similares al elemento.\n\n",
    "Estimas el precio de los artículos. Respondes solo con el precio, sin explicaciones.",
    "Y la pregunta para tí es:\n\n¿Cuánto cuesta el artículo?\n\n",
    "Producto potencialmente relacionado:",
    "Precio $")

  /** One similar product and its rendered price. */
  function Block(w: Wording, similar: string, priceText: string): string
  {
    w.relatedTitle + "\n" + similar + "\n" + w.pricePrefix + priceText + "\n\n"
  }

  /** The length of `zip(similars, prices)`. */
  function PairCount(similars: seq<string>, prices: seq<real>): (n: nat)
    ensures n <= |similars| && n <= |prices|
    ensures n == |similars| || n == |prices|
  {
    if |similars| <= |prices| then |similars| else |prices|
  }

  /** The block of each pair of `zip(similars, prices)`, in order. */
  function Blocks(w: Wording, similars: seq<string>, prices: seq<real>, fmt: real -> string): seq<string>
  {
    seq(PairCount(similars, prices), i requires 0 <= i < PairCount(similars, prices) => Block(w, similars[i], fmt(prices[i])))
  }

  /** The context make_context returns: the header, then the blocks. */
  function Context(w: Wording, similars: seq<string>, prices: seq<real>, fmt: real -> string): string
  {
    w.contextHeader + Seqs.Concat(Blocks(w, similars, prices, fmt))
  }

  /** `make_context`: the header, extended by one block per zipped pair. */
  method MakeContext(w: Wording, similars: seq<string>, prices: seq<real>, fmt: real -> string) returns (message: string)
    ensures message == Context(w, similars, prices, fmt)
  {
    ghost var blocks := Blocks(w, similars, prices, fmt);
    message := w.contextHeader;
    for i := 0 to PairCount(similars, prices)
      invariant message == w.contextHeader + Seqs.Concat(blocks[..i])
    {
      Seqs.ConcatPrefix(blocks, i);
      message := message + Block(w, similars[i], fmt(prices[i]));
    }
    assert blocks[..PairCount(similars, prices)] == blocks;
  }

  /** The zip stops at the shorter list: what lies beyond it does not reach the context. */
  lemma ContextTruncates(w: Wording, similars: seq<string>, prices: seq<real>, fmt: real -> string)
    ensures var n := PairCount(similars, prices);
      Context(w, similars, prices, fmt) == Context(w, similars[..n], prices[..n], fmt)
  {
    var n := PairCount(similars, prices);
    assert Blocks(w, similars, prices, fmt) == Blocks(w, similars[..n], prices[..n], fmt);
  }

  /** One more pair adds exactly its block at the end. */
  lemma ContextAppend(w: Wording, similars: seq<string>, prices: seq<real>, similar: string, price: real, fmt: real -> string)
    requires |similars| == |prices|
    ensures Context(w, similars + [similar], prices + [price], fmt)
         == Context(w, similars, prices, fmt) + Block(w, similar, fmt(price))
  {
    var longer := Blocks(w, similars + [similar], prices + [price], fmt);
    assert longer[..|longer| - 1] == Blocks(w, similars, prices, fmt);
  }

  /** With no similar products, or no prices, the context is the header alone. */
  lemma ContextOfNothing(w: Wording, similars: seq<string>, prices: seq<real>, fmt: real -> string)
    requires similars == [] || prices == []
    ensures Context(w, similars, prices, fmt) == w.contextHeader
  {
    assert Blocks(w, similars, prices, fmt) == [];
  }

  /** `messages_for`. */
  function MessagesFor(w: Wording, description: string, similars: seq<string>, prices: seq<real>, fmt: real -> string): (r: seq<Message>)
    ensures |r| == 3
    ensures r[0] == Message("system", w.systemMessage)
    ensures r[1].role == "user"
    ensures r[2] == Message("assistant", w.pricePrefix)
  {
    [ Message("system", w.systemMessage),
      Message("user", Context(w, similars, prices, fmt) + w.question + description),
      Message("assistant", w.pricePrefix) ]
  }

  /** The user message is the context, then the question, and ends with the description. */
  lemma UserMessage(w: Wording, description: string, similars: seq<string>, prices: seq<real>, fmt: real -> string)
    ensures var user := MessagesFor(w, description, similars, prices, fmt)[1].content;
      var context := Context(w, similars, prices, fmt);
      && |user| == |context| + |w.question| + |description|
      && user[..|context|] == context
      && user[|context|..|context| + |w.question|] == w.question
      && user[|user| - |description|..] == description
  {
    var user := MessagesFor(w, description, similars, prices, fmt)[1].content;
    var context := Context(w, similars, prices, fmt);
    assert user == context + w.question + description;
  }

  /** The services the estimator calls: the similarity search, the chat model and the price rendering. */
  datatype Services = Services(
    findSimilars: string -> (seq<string>, seq<real>),
    complete: seq<Message> -> string,
    fmt: real -> string)

  /** What the chat model replies to the prompt for a description. */
  function Reply(w: Wording, svc: Services, description: string): string
  {
    var (documents, prices) := svc.findSimilars(description);
    svc.complete(MessagesFor(w, description, documents, prices, svc.fmt))
  }

  /** `price`: the number read from the reply. */
  function Price(w: Wording, svc: Services, description: string): real
  {
    PriceParser.GetPrice(Reply(w, svc, description))
  }

  /** The estimate is the leftmost number of the reply once `$` and `,` are deleted, and 0 when there is none. */
  lemma PriceOfReply(w: Wording, svc: Services, description: string)
    ensures var reply := PriceParser.Strip(Reply(w, svc, description));
      var m := PriceParser.Search(reply, 0);
      && (m.None? <==> PriceParser.NoWordStartsIn(reply, 0, |reply| + 1))
      && (m.None? ==> Price(w, svc, description) == 0.0)
      && (m.Some? ==> PriceParser.IsLeftmostMatch(reply, m.value)
                      && PriceParser.IsLongestWordAt(reply, m.value)
                      && Price(w, svc, description) == PriceParser.Value(m.value.token))
  {
    PriceParser.SearchIsLeftmostMatch(PriceParser.Strip(Reply(w, svc, description)));
  }

  /** A reply without digits gives the estimate 0. */
  lemma PriceWithoutDigits(w: Wording, svc: Services, description: string)
    requires forall c :: c in Reply(w, svc, description) ==> !PriceParser.IsDigit(c)
    ensures Price(w, svc, description) == 0.0
  {
    PriceParser.NoDigitNoPrice(Reply(w, svc, description));
  }
}
