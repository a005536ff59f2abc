/**
 The endpoints as the client prints them (client/src/services/api.ts:55-117) and as the server's ordered chain of tests
 reads them (server/src/server.js:76-477). Bodies and headers play no part.
 */
module Routing {
  import opened Options

  datatype Method = Get | Post | Put | Delete

  datatype Call =
    | GetProducts
    | GetProduct(id: string)
    | SearchProducts(query: string)  // the query as encodeURIComponent leaves it
    | GetCart
    | AddToCart
    | UpdateCartItem(id: string)
    | RemoveFromCart(id: string)
    | ClearCart
    | CreateOrder
    | GetOrders
    | GetOrder(id: string)
    | HealthCheck

  /** The client's method and request target. */
  function Print(call: Call): (Method, string) {
    match call
    case GetProducts => (Get, "/api/products")
    case GetProduct(id) => (Get, "/api/products/" + id)
    case SearchProducts(query) => (Get, "/api/products/" + ("search" + ("?q=" + query)))
    case GetCart => (Get, "/api/cart")
    case AddToCart => (Post, "/api/cart")
    case UpdateCartItem(id) => (Put, "/api/cart/" + id)
    case RemoveFromCart(id) => (Delete, "/api/cart/" + id)
    case ClearCart => (Delete, "/api/cart")
    case CreateOrder => (Post, "/api/orders")
    case GetOrders => (Get, "/api/orders")
    case GetOrder(id) => (Get, "/api/orders/" + id)
    case HealthCheck => (Get, "/api/health")
  }

  // ----- the server

  datatype Handler =
    | Health
    | ListProducts
    | ShowProduct(id: Option<string>)
    | ListCart
    | AddItem
    | SetItem(id: Option<string>)
    | RemoveItem(id: Option<string>)
    | EmptyCart
    | ListOrders
    | PlaceOrder
    | ShowOrder(id: Option<string>)
    | NotFound

  /** new URL(target).pathname */
  function Pathname(target: string): string {
    if target == "" || target[0] == '?' || target[0] == '#' then "" else [target[0]] + Pathname(target[1..])
  }

  /** path.split('/') */
  function Split(path: string): (parts: seq<string>)
    ensures |parts| > 0
  {
    if path == "" then [""]
    else
      var rest := Split(path[1..]);
      if path[0] == '/' then [""] + rest else [[path[0]] + rest[0]] + rest[1..]
  }

  /** path.split('/')[3], which may be undefined */
  function FourthPart(path: string): Option<string> {
    if |Split(path)| > 3 then Some(Split(path)[3]) else None
  }

  /** The tests in the order in which they are made; the first that succeeds decides. */
  function Dispatch(verb: Method, path: string): Handler {
    if path == "/api/health" then Health
    else if path == "/api/products" && verb == Get then ListProducts
    else if "/api/products/" <= path && verb == Get then ShowProduct(FourthPart(path))
    else if path == "/api/cart" && verb == Get then ListCart
    else if path == "/api/cart" && verb == Post then AddItem
    else if "/api/cart/" <= path && verb == Put then SetItem(FourthPart(path))
    else if "/api/cart/" <= path && verb == Delete then RemoveItem(FourthPart(path))
    else if path == "/api/cart" && verb == Delete then EmptyCart
    else if path == "/api/orders" && verb == Get then ListOrders
    else if path == "/api/orders" && verb == Post then PlaceOrder
    else if "/api/orders/" <= path && verb == Get then ShowOrder(FourthPart(path))
    else NotFound
  }

  /** The handler the call is meant for. A search is meant for the list of products. */
  function Intended(call: Call): Handler {
    match call
    case GetProducts => ListProducts
    case GetProduct(id) => ShowProduct(Some(id))
    case SearchProducts(_) => ListProducts
    case GetCart => ListCart
    case AddToCart => AddItem
    case UpdateCartItem(id) => SetItem(Some(id))
    case RemoveFromCart(id) => RemoveItem(Some(id))
    case ClearCart => EmptyCart
    case CreateOrder => PlaceOrder
    case GetOrders => ListOrders
    case GetOrder(id) => ShowOrder(Some(id))
    case HealthCheck => Health
  }

  function Routed(call: Call): Handler {
    Dispatch(Print(call).0, Pathname(Print(call).1))
  }

  // ----- paths

  predicate IsCut(text: string) {
    '?' in text || '#' in text
  }

  lemma {:induction false} PathnameAfter(prefix: string, rest: string)
    requires !IsCut(prefix)
    ensures Pathname(prefix + rest) == prefix + Pathname(rest)
  {
    if prefix == "" {
      assert prefix + rest == rest;
    } else {
      PathnameAfter(prefix[1..], rest);
      assert (prefix + rest)[1..] == prefix[1..] + rest;
      assert prefix == [prefix[0]] + prefix[1..];
    }
  }

  lemma {:induction false} PathnameIsWholeExactlyIf(text: string)
    ensures Pathname(text) <= text
    ensures Pathname(text) == text <==> !IsCut(text)
  {
    if text != "" {
      PathnameIsWholeExactlyIf(text[1..]);
      assert text == [text[0]] + text[1..];
    }
  }

  lemma {:induction false} SplitAt(path: string, k: nat)
    requires k < |path| && path[k] == '/' && '/' !in path[..k]
    ensures Split(path) == [path[..k]] + Split(path[k + 1..])
  {
    if k > 0 {
      var rest := path[1..];
      assert path[..k][0] != '/';
      assert rest[..k - 1] == path[..k][1..] && rest[k - 1 + 1..] == path[k + 1..];
      SplitAt(rest, k - 1);
      assert path[..k] == [path[0]] + rest[..k - 1];
    }
  }

  lemma {:induction false} FirstPartIsWholeExactlyIf(text: string)
    ensures |Split(text)[0]| <= |text|
    ensures Split(text)[0] == text <==> '/' !in text
  {
    if text != "" {
      FirstPartIsWholeExactlyIf(text[1..]);
      assert text == [text[0]] + text[1..];
    }
  }

  /** A prefix of two segments between slashes. */
  predicate IsPrefix(prefix: string) {
    && |prefix| > 5 && prefix[0] == prefix[4] == prefix[|prefix| - 1] == '/'
    && '/' !in prefix[1..4] && '/' !in prefix[5..|prefix| - 1]
    && !IsCut(prefix)
  }

  /** What the server reads as the id behind such a prefix. */
  lemma FourthPartAfter(prefix: string, rest: string)
    requires IsPrefix(prefix)
    ensures FourthPart(prefix + rest) == Some(Split(rest)[0])
  {
    hide Split;
    var path, k := prefix + rest, |prefix| - 1;
    SplitAt(path, 0);
    assert path[1..][..3] == prefix[1..4] && path[1..][4..] == path[5..];
    SplitAt(path[1..], 3);
    assert path[5..][..k - 5] == prefix[5..k] && path[5..][k - 4..] == rest;
    SplitAt(path[5..], k - 5);
  }

  /** The id survives exactly if it has no slash and nothing in it ends the path. */
  lemma IdSurvivesExactlyIf(id: string)
    ensures Split(Pathname(id))[0] == id <==> '/' !in id && !IsCut(id)
  {
    PathnameIsWholeExactlyIf(id);
    FirstPartIsWholeExactlyIf(Pathname(id));
  }

  // ----- round trip

  /** Letters, digits, '-' and '_', as in the product and order ids of the shop. */
  predicate IsPlain(c: char) {
    'a' <= c <= 'z' || 'A' <= c <= 'Z' || '0' <= c <= '9' || c == '-' || c == '_'
  }

  predicate CarriesId(call: Call) {
    call.GetProduct? || call.UpdateCartItem? || call.RemoveFromCart? || call.GetOrder?
  }

  /** The URL parser leaves plain characters alone, and these three, which structure the target. */
  predicate IsUrlText(id: string) {
    forall k :: 0 <= k < |id| ==> IsPlain(id[k]) || id[k] in "/?#"
  }

  lemma ProductPath(path: string)
    requires "/api/products/" <= path
    ensures Dispatch(Get, path) == ShowProduct(FourthPart(path))
  {
    hide FourthPart;
    assert path[5] == 'p' && |path| > |"/api/products"|;
  }

  lemma CartPath(path: string)
    requires "/api/cart/" <= path
    ensures Dispatch(Put, path) == SetItem(FourthPart(path)) && Dispatch(Delete, path) == RemoveItem(FourthPart(path))
  {
    hide FourthPart;
    assert path[5] == 'c' && |path| > |"/api/cart"|;
  }

  lemma OrderPath(path: string)
    requires "/api/orders/" <= path
    ensures Dispatch(Get, path) == ShowOrder(FourthPart(path))
  {
    hide FourthPart;
    assert path[5] == 'o' && |path| > |"/api/orders"|;
  }

  lemma ProductIsRouted(id: string)
    ensures Routed(GetProduct(id)) == ShowProduct(Some(Split(Pathname(id))[0]))
  {
    hide Pathname, Split, FourthPart, Dispatch;
    var prefix := "/api/products/";
    assert IsPrefix(prefix);
    PathnameAfter(prefix, id);
    ProductPath(prefix + Pathname(id));
    FourthPartAfter(prefix, Pathname(id));
  }

  lemma UpdateIsRouted(id: string)
    ensures Routed(UpdateCartItem(id)) == SetItem(Some(Split(Pathname(id))[0]))
  {
    hide Pathname, Split, FourthPart, Dispatch;
    var prefix := "/api/cart/";
    assert IsPrefix(prefix);
    PathnameAfter(prefix, id);
    CartPath(prefix + Pathname(id));
    FourthPartAfter(prefix, Pathname(id));
  }

  lemma RemovalIsRouted(id: string)
    ensures Routed(RemoveFromCart(id)) == RemoveItem(Some(Split(Pathname(id))[0]))
  {
    hide Pathname, Split, FourthPart, Dispatch;
    var prefix := "/api/cart/";
    assert IsPrefix(prefix);
    PathnameAfter(prefix, id);
    CartPath(prefix + Pathname(id));
    FourthPartAfter(prefix, Pathname(id));
  }

  lemma OrderIsRouted(id: string)
    ensures Routed(GetOrder(id)) == ShowOrder(Some(Split(Pathname(id))[0]))
  {
    hide Pathname, Split, FourthPart, Dispatch;
    var prefix := "/api/orders/";
    assert IsPrefix(prefix);
    PathnameAfter(prefix, id);
    OrderPath(prefix + Pathname(id));
    FourthPartAfter(prefix, Pathname(id));
  }

  lemma FixedPathsAreRouted(call: Call)
    requires !CarriesId(call) && !call.SearchProducts?
    ensures Routed(call) == Intended(call)
  {
    hide Pathname, Split, FourthPart;
    var path := Print(call).1;
    PathnameIsWholeExactlyIf(path);
    assert !IsCut(path);
    assert path[5] == 'p' || path[5] == 'c' || path[5] == 'o' || path[5] == 'h';
    assert |path| <= |"/api/products"|;
  }

  /**
   Every call but a search reaches its handler with exactly its id, if and only if the id does not contain a slash and
   nothing that ends the path.
   */
  lemma RoundTripExactlyIf(call: Call)
    requires !call.SearchProducts? && (CarriesId(call) ==> IsUrlText(call.id))
    ensures Routed(call) == Intended(call) <==>
              (CarriesId(call) ==> '/' !in call.id && '?' !in call.id && '#' !in call.id)
  {
    hide Pathname, Split, Dispatch, Routed;
    if CarriesId(call) {
      IdSurvivesExactlyIf(call.id);
      ProductIsRouted(call.id);
      OrderIsRouted(call.id);
      UpdateIsRouted(call.id);
      RemovalIsRouted(call.id);
    } else {
      FixedPathsAreRouted(call);
    }
  }

  /** In particular every call with a plain id; and no two such calls reach the same handler with the same id. */
  lemma PlainCallsRoundTrip(call: Call, other: Call)
    requires !call.SearchProducts? && (CarriesId(call) ==> forall k :: 0 <= k < |call.id| ==> IsPlain(call.id[k]))
    requires !other.SearchProducts? && (CarriesId(other) ==> forall k :: 0 <= k < |other.id| ==> IsPlain(other.id[k]))
    ensures Routed(call) == Intended(call)
    ensures Routed(call) == Routed(other) ==> call == other
  {
    hide Pathname, Split, Dispatch, Routed, Print;
    RoundTripExactlyIf(call);
    RoundTripExactlyIf(other);
  }

  /** A query is cut off. */
  lemma QueryIsCutOff(id: string, query: string)
    requires '/' !in id && !IsCut(id)
    ensures Routed(GetProduct(id + ("?q=" + query))) == ShowProduct(Some(id))
  {
    var rest := "?q=" + query;
    assert Pathname(rest) == "";
    hide Pathname, Split, FourthPart, Dispatch;
    PathnameAfter(id, rest);
    assert id + "" == id;
    FirstPartIsWholeExactlyIf(id);
    ProductIsRouted(id + rest);
  }

  /** A search never reaches the product list: the test for a single product takes it, with the id "search". */
  lemma SearchIsShadowed(query: string)
    ensures Routed(SearchProducts(query)) == ShowProduct(Some("search")) != Intended(SearchProducts(query))
  {
    hide Pathname, Split, FourthPart, Dispatch;
    QueryIsCutOff("search", query);
  }

  // ----- what reaches a handler

  /** The handlers without an id, apart from the health check, take the one request meant for them and no other. */
  lemma FixedHandlersExactlyIf(call: Call, verb: Method, path: string)
    requires !CarriesId(call) && !call.SearchProducts? && !call.HealthCheck?
    ensures Dispatch(verb, path) == Intended(call) <==> (verb, path) == Print(call)
  {
    hide FourthPart;
    if (verb, path) == Print(call) {
      assert path[5] == 'p' || path[5] == 'c' || path[5] == 'o';
      assert |path| <= |"/api/products"|;
    }
  }

  /** The cart is emptied by DELETE /api/cart, and by nothing else. */
  lemma EmptyCartExactlyIf(verb: Method, path: string)
    ensures Dispatch(verb, path) == EmptyCart <==> verb == Delete && path == "/api/cart"
  {
    FixedHandlersExactlyIf(ClearCart, verb, path);
  }

  /** The health check does not look at the verb. */
  lemma HealthExactlyIf(verb: Method, path: string)
    ensures Dispatch(verb, path) == Health <==> path == "/api/health"
  {
    hide FourthPart;
  }

  /** No path belongs to two of the three resources. */
  lemma OneResource(path: string)
    ensures path == "/api/products" || "/api/products/" <= path ==> path[5] == 'p'
    ensures path == "/api/cart" || "/api/cart/" <= path ==> path[5] == 'c'
    ensures path == "/api/orders" || "/api/orders/" <= path ==> path[5] == 'o'
  {}

  function CallWithId(verb: Method, path: string): (call: Call)
    requires ("/api/products/" <= path && verb == Get) || ("/api/cart/" <= path && (verb == Put || verb == Delete))
             || ("/api/orders/" <= path && verb == Get)
    ensures Print(call) == (verb, path) && CarriesId(call)
  {
    OneResource(path);
    if "/api/products/" <= path then
      assert "/api/products/" + path[14..] == path;
      GetProduct(path[14..])
    else if "/api/orders/" <= path then
      assert "/api/orders/" + path[12..] == path;
      GetOrder(path[12..])
    else
      assert "/api/cart/" + path[10..] == path;
      if verb == Put then UpdateCartItem(path[10..]) else RemoveFromCart(path[10..])
  }

  predicate SameKind(handler: Handler, call: Call) {
    match call
    case GetProduct(_) => handler.ShowProduct?
    case UpdateCartItem(_) => handler.SetItem?
    case RemoveFromCart(_) => handler.RemoveItem?
    case GetOrder(_) => handler.ShowOrder?
    case _ => false
  }

  /** A handler with an id takes every request that the calls meant for it can print, and no other. */
  lemma HandlersWithIdExactlyIf(call: Call, verb: Method, path: string)
    requires CarriesId(call)
    ensures SameKind(Dispatch(verb, path), call) <==>
              exists id :: Print(call.(id := id)) == (verb, path)
  {
    hide FourthPart;
    OneResource(path);
    if SameKind(Dispatch(verb, path), call) {
      assert Print(call.(id := CallWithId(verb, path).id)) == (verb, path);
    }
    if id: string :| Print(call.(id := id)) == (verb, path) {
      if "/api/products/" <= path {
        ProductPath(path);
      } else if "/api/cart/" <= path {
        CartPath(path);
      } else {
        OrderPath(path);
      }
    }
  }

  lemma PrintedCall(verb: Method, path: string)
    requires Dispatch(verb, path) != NotFound && path != "/api/health"
    ensures exists call :: Print(call) == (verb, path)
  {
    hide FourthPart;
    OneResource(path);
    if path == "/api/products" {
      assert Print(GetProducts) == (verb, path);
    } else if path == "/api/cart" {
      assert Print(if verb == Get then GetCart else if verb == Post then AddToCart else ClearCart) == (verb, path);
    } else if path == "/api/orders" {
      assert Print(if verb == Get then GetOrders else CreateOrder) == (verb, path);
    } else {
      assert Print(CallWithId(verb, path)) == (verb, path);
    }
  }

  lemma PrintedIsFound(call: Call)
    ensures Dispatch(Print(call).0, Print(call).1) != NotFound
  {
    hide FourthPart;
    var path := Print(call).1;
    if "/api/products/" <= path {
      ProductPath(path);
    } else if "/api/cart/" <= path {
      CartPath(path);
    } else if "/api/orders/" <= path {
      OrderPath(path);
    }
  }

  /** A request is answered with 404 exactly if it is neither for the health check nor one that the client can print. */
  lemma NotFoundExactlyIf(verb: Method, path: string)
    ensures Dispatch(verb, path) == NotFound <==>
              path != "/api/health" && forall call :: Print(call) != (verb, path)
  {
    hide FourthPart;
    if Dispatch(verb, path) != NotFound && path != "/api/health" {
      PrintedCall(verb, path);
    }
    if call :| Print(call) == (verb, path) {
      PrintedIsFound(call);
    }
  }
}
