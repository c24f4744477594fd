/** Host pages and their registry: a page leaves the open state once, the registry counts the pages of
    a host and remembers released tokens for a while. */
module PageShim {
  import opened Results
  import opened Sequences

  const MAX_PAGES := 8
  const MAX_SPENT := 1024

  type Token(==) = string

  datatype PageState = Open | Submitted | Dismissed

  // ----- one page -----

  /** What is known of a page. */
  datatype Rec = Rec(host: string, row: string, side: string, state: PageState, pageId: string, value: string)

  /** One attempt to move a page: a POST, a poll, or a submit or close from the host. */
  datatype Attempt = Attempt(next: PageState, text: string)

  function Moved(r: Rec, a: Attempt): Rec {
    if r.state != Open then r else r.(state := a.next, value := a.text)
  }

  function Named(r: Rec, id: string): Rec { if r.pageId != "" then r else r.(pageId := id) }

  /** What a blocking call prints and exits with. */
  datatype Answer = Answer(value: Option<string>, exit: nat)

  function OutcomeOf(r: Rec): Answer { if r.state == Submitted then Answer(Some(r.value), 0) else Answer(None, 2) }

  class Page {
    const token: Token
    const host: string
    const row: string
    const side: string
    var state: PageState
    var pageId: string
    var value: string
    var bound: bool             // the bound channel is closed
    var done: bool              // the done channel is closed

    ghost predicate Valid()
      reads this
    {
      && (done <==> state != Open) && (bound <==> pageId != "")
    }

    ghost function View(): Rec
      reads this
    {
      Rec(host, row, side, state, pageId, value)
    }

    constructor (token: Token, host: string, row: string, side: string)
      ensures Valid() && state == Open && !bound
      ensures this.token == token && View() == Rec(host, row, side, Open, "", "")
    {
      this.token, this.host, this.row, this.side := token, host, row, side;
      state, pageId, value, bound, done := Open, "", "", false, false;
    }

    /** The first id wins; the channel is closed with it, so never twice. */
    method Bind(id: string)
      requires Valid() && id != ""
      modifies `pageId, `bound
      ensures Valid() && bound && pageId == (if old(bound) then old(pageId) else id)
      ensures View() == Named(old(View()), id)
    {
      if pageId != "" {
        return;
      }
      pageId, bound := id, true;
    }

    /** An open page moves exactly once; the caller learns whether it was this call. */
    method Transition(next: PageState, text: string) returns (won: bool)
      requires Valid() && next != Open
      modifies `state, `value, `done
      ensures Valid() && won == (old(state) == Open) && state != Open
      ensures if won then state == next && value == text else state == old(state) && value == old(value)
      ensures View() == Moved(old(View()), Attempt(next, text))
    {
      if state != Open {
        return false;
      }
      state, value, done := next, text, true;
      return true;
    }

    /** What a blocking call reports: the value of a submitted page, and 0 for it or 2. */
    method Outcome() returns (answer: Option<string>, exit: nat)
      requires Valid()
      ensures answer == (if state == Submitted then Some(value) else None)
      ensures exit == if state == Submitted then 0 else 2
      ensures Answer(answer, exit) == OutcomeOf(View())
    {
      exit, answer := 2, None;
      if state == Submitted {
        answer, exit := Some(value), 0;
      }
    }
  }

  // ----- the registry -----

  datatype Registry = Registry(pages: map<Token, string>, perHost: map<string, nat>, spent: seq<Token>)

  function CountIn(perHost: map<string, nat>, host: string): nat { if host in perHost then perHost[host] else 0 }

  function Added(r: Registry, token: Token, host: string): Registry {
    r.(pages := r.pages[token := host], perHost := r.perHost[host := CountIn(r.perHost, host) + 1])
  }

  /** The oldest token is forgotten when there are too many. */
  function Remembered(spent: seq<Token>, token: Token): seq<Token> {
    if |spent| + 1 > MAX_SPENT then (spent + [token])[1..] else spent + [token]
  }

  function Dropped(r: Registry, token: Token): Registry {
    if token !in r.pages then r
    else
      var host := r.pages[token];
      var n := CountIn(r.perHost, host) - 1;
      Registry(r.pages - {token},
               if n <= 0 then r.perHost - {host} else r.perHost[host := n],
               Remembered(r.spent, token))
  }

  function Cleared(r: Registry): Registry { r.(pages := map[], perHost := map[]) }

  /** How many of the pages belong to host. */
  function CountOf(pages: map<Token, string>, host: string): nat { |Tokens(pages, host)| }

  function Tokens(pages: map<Token, string>, host: string): set<Token> { set t | t in pages && pages[t] == host }

  /** The last MAX_SPENT of a list. */
  function Last(list: seq<Token>): seq<Token> {
    if |list| > MAX_SPENT then list[|list| - MAX_SPENT..] else list
  }

  predicate Distinct(list: seq<Token>) { forall i, j :: 0 <= i < j < |list| ==> list[i] != list[j] }

  /** The counts are those of the pages, none over MAX_PAGES; and of all tokens ever released, each
      once, the last MAX_SPENT are remembered. */
  ghost predicate RegistryOk(r: Registry, history: seq<Token>) {
    && (forall h :: CountOf(r.pages, h) == CountIn(r.perHost, h))
    && (forall h :: h in r.perHost ==> 0 < r.perHost[h] <= MAX_PAGES)
    && r.spent == Last(history) && Distinct(history)
    && (forall t :: t in history ==> t !in r.pages)
  }

  /** Every token ever released, with this one if it is there to release. */
  function History(r: Registry, history: seq<Token>, token: Token): seq<Token> {
    if token in r.pages then history + [token] else history
  }

  lemma AddedOk(r: Registry, history: seq<Token>, token: Token, host: string)
    requires RegistryOk(r, history) && token !in r.pages && token !in history && CountIn(r.perHost, host) < MAX_PAGES
    ensures RegistryOk(Added(r, token, host), history)
  {
    hide CountOf;
    var a := Added(r, token, host);
    CountAdded(r.pages, token, host);
    forall h ensures CountOf(a.pages, h) == CountIn(a.perHost, h) {
      assert CountOf(r.pages, h) == CountIn(r.perHost, h);
    }
  }

  lemma DroppedOk(r: Registry, history: seq<Token>, token: Token)
    requires RegistryOk(r, history)
    ensures RegistryOk(Dropped(r, token), History(r, history, token))
  {
    hide CountOf, Last;
    if token in r.pages {
      CountRemoved(r.pages, token);
      LastSnoc(history, token);
      var host := r.pages[token];
      var d := Dropped(r, token);
      assert CountIn(r.perHost, host) > 0 by { Counted(r.pages, token); }
      forall h ensures CountOf(d.pages, h) == CountIn(d.perHost, h) {
        assert CountOf(r.pages, h) == CountIn(r.perHost, h);
        assert h != host ==> CountIn(d.perHost, h) == CountIn(r.perHost, h);
      }
      assert Distinct(history + [token]);
    }
  }

  lemma ClearedOk(r: Registry, history: seq<Token>)
    requires RegistryOk(r, history)
    ensures RegistryOk(Cleared(r), history)
  {
    forall h ensures CountOf(map[], h) == 0 { assert Tokens(map[], h) == {}; }
  }

  lemma Counted(pages: map<Token, string>, token: Token)
    requires token in pages
    ensures CountOf(pages, pages[token]) > 0
  {
    assert token in Tokens(pages, pages[token]);
  }

  class Shim {
    var pages: map<Token, string>         // token to host
    var perHost: map<string, nat>
    var released: set<Token>
    var spentList: seq<Token>
    ghost var history: seq<Token>         // every token ever released
    ghost var registered: set<Token>      // every token ever registered

    ghost function View(): Registry
      reads this
    {
      Registry(pages, perHost, spentList)
    }

    ghost predicate Valid()
      reads this
    {
      && RegistryOk(View(), history) && released == (set t | t in spentList)
      && (forall t :: t in history ==> t in registered) && pages.Keys <= registered
    }

    constructor ()
      ensures Valid() && View() == Registry(map[], map[], []) && registered == {} && history == []
    {
      pages, perHost, released, spentList := map[], map[], {}, [];
      history, registered := [], {};
    }

    /** register: refused when the host has MAX_PAGES pages or the page server cannot start;
        tokens are fresh. */
    method Register(token: Token, host: string, serves: bool) returns (ok: bool)
      requires Valid() && token !in registered
      modifies this
      ensures Valid() && ok == (CountOf(old(pages), host) < MAX_PAGES && serves)
      ensures pages == if ok then old(pages)[token := host] else old(pages)
      ensures View() == if ok then Added(old(View()), token, host) else old(View())
      ensures history == old(history) && registered == if ok then old(registered) + {token} else old(registered)
    {
      var n := if host in perHost then perHost[host] else 0;
      assert n == CountOf(pages, host) == CountIn(perHost, host);
      if n >= MAX_PAGES {
        return false;
      }
      if !serves {
        return false;
      }
      AddedOk(View(), history, token, host);
      pages := pages[token := host];
      perHost := perHost[host := n + 1];
      registered := registered + {token};
      return true;
    }

    /** release: the token goes, is remembered and no longer counted; a second time, or after
        close, nothing happens. */
    method Release(token: Token)
      requires Valid() && token in registered
      modifies this
      ensures Valid() && token !in pages && pages == old(pages) - {token} && registered == old(registered)
      ensures View() == Dropped(old(View()), token) && history == History(old(View()), old(history), token)
    {
      DroppedOk(View(), history, token);
      if token in pages {
        var host := pages[token];
        Counted(pages, token);
        pages := pages - {token};
        Remember(token);
        var n := perHost[host] - 1;
        if n <= 0 {
          perHost := perHost - {host};
        } else {
          perHost := perHost[host := n];
        }
      }
    }

    /** remember: the oldest token is forgotten when there are too many. */
    method Remember(token: Token)
      requires spentList == Last(history) && released == (set t | t in spentList)
      requires Distinct(history) && token !in history
      modifies `released, `spentList, `history
      ensures history == old(history) + [token] && spentList == Last(history) && released == (set t | t in spentList)
      ensures spentList == Remembered(old(spentList), token)
    {
      LastSnoc(history, token);
      DistinctLast(history, token);
      history := history + [token];
      released := released + {token};
      spentList := spentList + [token];
      assert released == (set t | t in spentList);
      if |spentList| > MAX_SPENT {
        HeadOnce(spentList);
        released := released - {spentList[0]};
        spentList := spentList[1..];
      }
    }

    /** close: every page goes at once; calls still holding one release it to no effect. */
    method Close()
      requires Valid()
      modifies `pages, `perHost
      ensures Valid() && pages == map[] && View() == Cleared(old(View()))
    {
      ClearedOk(View(), history);
      pages, perHost := map[], map[];
    }

    /** Whether a token belonged to a page that was released, as far as it is remembered. */
    method Spent(token: Token) returns (yes: bool)
      requires Valid()
      ensures yes <==> token in Last(history)
    {
      yes := token in released;
    }
  }

  lemma DistinctLast(history: seq<Token>, token: Token)
    requires Distinct(history) && token !in history
    ensures Distinct(Last(history) + [token])
  {
    assert forall t :: t in Last(history) ==> t in history;
  }

  lemma TokensAdded(pages: map<Token, string>, token: Token, host: string, h: string)
    requires token !in pages
    ensures Tokens(pages[token := host], h) == Tokens(pages, h) + (if h == host then {token} else {})
    ensures token !in Tokens(pages, h)
  {}

  lemma TokensRemoved(pages: map<Token, string>, token: Token, h: string)
    requires token in pages
    ensures Tokens(pages - {token}, h) == Tokens(pages, h) - {token}
    ensures token in Tokens(pages, h) <==> h == pages[token]
  {}

  lemma CountAdded(pages: map<Token, string>, token: Token, host: string)
    requires token !in pages
    ensures forall h :: CountOf(pages[token := host], h) == CountOf(pages, h) + (if h == host then 1 else 0)
  {
    hide Tokens;
    forall h ensures CountOf(pages[token := host], h) == CountOf(pages, h) + (if h == host then 1 else 0) {
      TokensAdded(pages, token, host, h);
      assert Tokens(pages, h) + {} == Tokens(pages, h);
    }
  }

  lemma CountRemoved(pages: map<Token, string>, token: Token)
    requires token in pages
    ensures forall h :: CountOf(pages - {token}, h) == CountOf(pages, h) - (if h == pages[token] then 1 else 0)
  {
    hide Tokens;
    forall h ensures CountOf(pages - {token}, h) == CountOf(pages, h) - (if h == pages[token] then 1 else 0) {
      TokensRemoved(pages, token, h);
      assert h != pages[token] ==> Tokens(pages, h) - {token} == Tokens(pages, h);
    }
  }

  lemma HeadOnce(list: seq<Token>)
    requires list != [] && Distinct(list)
    ensures (set t | t in list) - {list[0]} == (set t | t in list[1..])
  {
    forall t ensures t in list && t != list[0] <==> t in list[1..] {
      if t in list && t != list[0] {
        var k :| 0 <= k < |list| && list[k] == t;
        assert list[1..][k - 1] == t;
      }
      if t in list[1..] {
        var k :| 0 <= k < |list[1..]| && list[1..][k] == t;
        assert list[k + 1] == t && list[0] != list[k + 1];
      }
    }
  }

  lemma LastSnoc(list: seq<Token>, token: Token)
    ensures Last(list + [token]) == Remembered(Last(list), token) && |Last(list)| <= MAX_SPENT
  {}
}
