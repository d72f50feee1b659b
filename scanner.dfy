/**
 * The deal scanner of agente_scanner.py: it drops the listings whose url is
 * already remembered, asks a summarising model to pick and describe the most
 * promising of the rest, and keeps the picked deals with a positive price.
 *
 * Fetching the RSS listings, describing a listing and the structured-output
 * call are parameters. The three prompt texts are kept in a Prompts value, so
 * that the lemmas are stated for the texts the agent uses and for any others.
 */
module Scanner {
  import opened Wrappers
  import opened Deals
  import opened Chat
  import Seqs

  /** The fixed texts of the conversation: the system prompt and the frame of the user prompt. */
  datatype Prompts = Prompts(system: string, userPrefix: string, userSuffix: string)

  /** SYSTEM_PROMPT, USER_PROMPT_PREFIX and USER_PROMPT_SUFFIX. */
  const AgentPrompts: Prompts := Prompts(
    "Tú identificas y resumes las 5 ofertas más detalladas de una lista, seleccionando aquellas que tengan la descripción de producto más completa y detallada, y un precio claramente definido.\n    Responde estrictamente en formato JSON sin explicación adicional, utilizando este formato. Debes proporcionar el precio como un número obtenido de la descripción. Si el precio de una oferta no es claro, no la incluyas en tu respuesta.\n    Lo más importante es que respondas con las 5 ofertas que tengan la descripción de producto más detallada y clara. No es importante mencionar las condiciones del descuento; lo más relevante es la descripción del producto.\n    Ten cuidado con productos descritos como “$XXX de descuento” o “rebajado $XXX” — esto no es el precio real del producto. Solo responde cuando estés muy seguro del precio real.\n    \n    {\"deals\": [\n        {\n            \"product_description\": \"Tu resumen claro del producto en 4–5 frases. Los detalles del producto son mucho más importantes que explicar por qué es una buena oferta. Evita mencionar descuentos o cupones; concéntrate en el artículo en sí. Debe haber un párrafo para cada producto elegido.\",\n            \"price\": 99.99,\n            \"url\": \"the url as provided\"\n        },\n        ...\n    ]}",
    "Responde con las 5 ofertas más prometedoras de esta lista, seleccionando aquellas que tengan la descripción del producto más detallada y de mayor calidad, y un precio claro mayor que 0.\n    Responde estrictamente en JSON, y solo JSON. Debes reescribir la descripción como un resumen del producto en sí, no de las condiciones de la oferta.\n    Recuerda incluir un párrafo completo de descripción por cada uno de los 5 productos seleccionados.\n    Ten cuidado con productos descritos como “$XXX de descuento” o “rebajado $XXX” — ese no es el precio real del artículo. Solo responde cuando estés muy seguro del precio real.\n    \n    Ofertas:\n    \n    ",
    "\n\nResponde estrictamente en JSON e incluye exactamente 5 ofertas, ni más ni menos.")

  /** The scanner: its prompts and the services it calls, describing a listing and the structured-output model. */
  datatype Agent = Agent(
    prompts: Prompts,
    describe: ScrapedDeal -> string,
    select: seq<Message> -> DealSelection)

  /** `[opp.deal.url for opp in memory]`. */
  function MemoryUrls(memory: seq<Opportunity>): (urls: seq<string>)
    ensures |urls| == |memory|
    ensures forall i :: 0 <= i < |memory| ==> urls[i] == memory[i].deal.url
  {
    if memory == [] then [] else [memory[0].deal.url] + MemoryUrls(memory[1..])
  }

  /** The urls of the remembered opportunities are exactly the urls in the list. */
  lemma {:induction false} MemoryUrlsMembership(memory: seq<Opportunity>, url: string)
    ensures url in MemoryUrls(memory) <==> exists opp :: opp in memory && opp.deal.url == url
  {
    if memory != [] {
      MemoryUrlsMembership(memory[1..], url);
      assert memory[0] in memory;
      forall opp | opp in memory[1..] ensures opp in memory {
      }
      forall opp | opp in memory && opp != memory[0] ensures opp in memory[1..] {
      }
    }
  }

  /** `fetch_deals`: the fetched listings whose url no remembered opportunity has. */
  function FetchDeals(memory: seq<Opportunity>, scraped: seq<ScrapedDeal>): seq<ScrapedDeal>
  {
    var urls := MemoryUrls(memory);
    Seqs.Filter(scraped, (d: ScrapedDeal) => d.url !in urls)
  }

  /** Nothing returned has the url of a remembered opportunity. */
  lemma FetchDealsAreNew(memory: seq<Opportunity>, scraped: seq<ScrapedDeal>, d: ScrapedDeal, opp: Opportunity)
    requires d in FetchDeals(memory, scraped)
    requires opp in memory
    ensures d.url != opp.deal.url
  {
    MemoryUrlsMembership(memory, d.url);
  }

  /** A fetched listing is returned exactly when no remembered opportunity has its url. */
  lemma FetchDealsKeepsNew(memory: seq<Opportunity>, scraped: seq<ScrapedDeal>, d: ScrapedDeal)
    requires d in scraped
    ensures d in FetchDeals(memory, scraped) <==> forall opp :: opp in memory ==> opp.deal.url != d.url
  {
    MemoryUrlsMembership(memory, d.url);
  }

  /** Every copy of a new listing is returned, and no copy of a remembered one. */
  lemma FetchDealsCounts(memory: seq<Opportunity>, scraped: seq<ScrapedDeal>)
    ensures forall d :: multiset(FetchDeals(memory, scraped))[d] ==
                if (forall opp :: opp in memory ==> opp.deal.url != d.url) then multiset(scraped)[d] else 0
  {
    var urls := MemoryUrls(memory);
    Seqs.FilterCount(scraped, (d: ScrapedDeal) => d.url !in urls);
    forall d: ScrapedDeal {
      MemoryUrlsMembership(memory, d.url);
    }
  }

  /** The listings keep the order in which they were fetched. */
  lemma FetchDealsInOrder(memory: seq<Opportunity>, scraped: seq<ScrapedDeal>)
    ensures Seqs.IsSubsequence(FetchDeals(memory, scraped), scraped)
  {
    Seqs.FilterIsSubsequence(scraped, (d: ScrapedDeal) => d.url !in MemoryUrls(memory));
  }

  /** With nothing remembered, every fetched listing is returned. */
  lemma FetchDealsWithoutMemory(scraped: seq<ScrapedDeal>)
    ensures FetchDeals([], scraped) == scraped
  {
    var keep := (d: ScrapedDeal) => d.url !in MemoryUrls([]);
    Seqs.FilterKeepsAll(scraped, keep);
  }

  /** `[scrape.describe() for scrape in scraped]`. */
  function Descriptions(describe: ScrapedDeal -> string, scraped: seq<ScrapedDeal>): (r: seq<string>)
    ensures |r| == |scraped|
    ensures forall i :: 0 <= i < |scraped| ==> r[i] == describe(scraped[i])
  {
    seq(|scraped|, i requires 0 <= i < |scraped| => describe(scraped[i]))
  }

  /** `make_user_prompt`: the prefix, the descriptions separated by blank lines, the suffix. */
  function MakeUserPrompt(p: Prompts, describe: ScrapedDeal -> string, scraped: seq<ScrapedDeal>): string
  {
    p.userPrefix + Seqs.Join("\n\n", Descriptions(describe, scraped)) + p.userSuffix
  }

  /** The prompt starts with the prefix, ends with the suffix, and holds the joined descriptions between them. */
  lemma UserPromptFrame(p: Prompts, describe: ScrapedDeal -> string, scraped: seq<ScrapedDeal>)
    ensures var prompt := MakeUserPrompt(p, describe, scraped);
      var body := Seqs.Join("\n\n", Descriptions(describe, scraped));
      && |prompt| == |p.userPrefix| + |body| + |p.userSuffix|
      && prompt[..|p.userPrefix|] == p.userPrefix
      && prompt[|p.userPrefix|..|p.userPrefix| + |body|] == body
      && prompt[|prompt| - |p.userSuffix|..] == p.userSuffix
  {
    var body := Seqs.Join("\n\n", Descriptions(describe, scraped));
    var prompt := MakeUserPrompt(p, describe, scraped);
    assert prompt == p.userPrefix + body + p.userSuffix;
  }

  /** Each further listing adds a blank line and its description before the suffix. */
  lemma UserPromptAppend(p: Prompts, describe: ScrapedDeal -> string, scraped: seq<ScrapedDeal>, d: ScrapedDeal)
    requires scraped != []
    ensures MakeUserPrompt(p, describe, scraped + [d])
         == p.userPrefix + Seqs.Join("\n\n", Descriptions(describe, scraped)) + "\n\n" + describe(d) + p.userSuffix
  {
    assert Descriptions(describe, scraped + [d]) == Descriptions(describe, scraped) + [describe(d)];
    Seqs.JoinSnoc("\n\n", Descriptions(describe, scraped), describe(d));
  }

  /** The conversation sent to the structured-output model. */
  function ScanMessages(a: Agent, scraped: seq<ScrapedDeal>): seq<Message>
  {
    [Message("system", a.prompts.system), Message("user", MakeUserPrompt(a.prompts, a.describe, scraped))]
  }

  predicate HasPositivePrice(d: Deal)
  {
    d.price > 0.0
  }

  /** `scan`: nothing when no new listing was fetched, else the model's selection cut down to positive prices. */
  function Scan(a: Agent, memory: seq<Opportunity>, scraped: seq<ScrapedDeal>): Option<DealSelection>
  {
    var unseen := FetchDeals(memory, scraped);
    if unseen == [] then None
    else
      var selection := a.select(ScanMessages(a, unseen));
      Some(selection.(deals := Seqs.Filter(selection.deals, HasPositivePrice)))
  }

  /** The scan gives nothing exactly when every fetched listing is already remembered. */
  lemma ScanNothingNew(a: Agent, memory: seq<Opportunity>, scraped: seq<ScrapedDeal>)
    ensures Scan(a, memory, scraped).None? <==> FetchDeals(memory, scraped) == []
  {
  }

  /** When nothing new was fetched, the model is not consulted: agents that differ in their services give the same answer. */
  lemma ScanNothingNewSkipsModel(a1: Agent, a2: Agent, memory: seq<Opportunity>, scraped: seq<ScrapedDeal>)
    requires FetchDeals(memory, scraped) == []
    ensures Scan(a1, memory, scraped) == Scan(a2, memory, scraped) == None
  {
  }

  /** The deals returned are the model's picks with a positive price, every copy of them, in the model's order, and no other. */
  lemma ScanKeepsPositivePrices(a: Agent, memory: seq<Opportunity>, scraped: seq<ScrapedDeal>)
    requires Scan(a, memory, scraped).Some?
    ensures var picked := a.select(ScanMessages(a, FetchDeals(memory, scraped))).deals;
      var kept := Scan(a, memory, scraped).value.deals;
      && (forall i :: 0 <= i < |kept| ==> kept[i].price > 0.0)
      && (forall d :: d in kept <==> d in picked && d.price > 0.0)
      && Seqs.IsSubsequence(kept, picked)
      && (forall d :: multiset(kept)[d] == if d.price > 0.0 then multiset(picked)[d] else 0)
  {
    var picked := a.select(ScanMessages(a, FetchDeals(memory, scraped))).deals;
    Seqs.FilterIsSubsequence(picked, HasPositivePrice);
    Seqs.FilterCount(picked, HasPositivePrice);
  }

  /** A selection whose picks all have positive prices is passed on untouched. */
  lemma ScanKeepsPositiveSelection(a: Agent, memory: seq<Opportunity>, scraped: seq<ScrapedDeal>)
    requires FetchDeals(memory, scraped) != []
    requires var picked := a.select(ScanMessages(a, FetchDeals(memory, scraped)));
      forall i :: 0 <= i < |picked.deals| ==> picked.deals[i].price > 0.0
    ensures Scan(a, memory, scraped) == Some(a.select(ScanMessages(a, FetchDeals(memory, scraped))))
  {
    var picked := a.select(ScanMessages(a, FetchDeals(memory, scraped))).deals;
    Seqs.FilterKeepsAll(picked, HasPositivePrice);
  }
}
