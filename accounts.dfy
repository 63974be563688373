/**
 * The `Accounts` tables: accounts by id (label, currency, type) and
 * categories by id (parent id, label), each in the order its rows were read,
 * and the ledger account names built from them.
 */
module Accounts {
  import opened Wrappers
  import opened Text
  import opened Assoc

  datatype Account = Account(name: string, currency: string, kind: string)

  /** A stored category; the parent is None for a top-level category. */
  datatype Category = Category(parent: Option<int>, name: string)

  datatype AccountRow = AccountRow(id: int, account: Account)
  datatype CategoryRow = CategoryRow(id: int, parentId: Option<int>, name: string)

  /** The object is filled in by its constructor and only read afterwards. */
  datatype Tables = Tables(assets: Assoc<int, Account>, categories: Assoc<int, Category>)

  /** No stored category names itself as its parent. */
  predicate NoSelfParent(cats: Assoc<int, Category>)
  {
    forall i :: 0 <= i < |cats| ==> cats[i].1.parent != Some(cats[i].0)
  }

  /** What a category row is stored as: a parent equal to the row's own id means "no parent". */
  function Stored(r: CategoryRow): (c: Category)
    ensures c.name == r.name
    ensures c.parent == (if r.parentId == Some(r.id) then None else r.parentId)
  {
    Category(if r.parentId == Some(r.id) then None else r.parentId, r.name)
  }

  /** The (id, value) assignments the account loader makes, in row order. */
  function AccountPairs(rows: seq<AccountRow>): (ps: Assoc<int, Account>)
    ensures |ps| == |rows| && forall i :: 0 <= i < |rows| ==> ps[i] == (rows[i].id, rows[i].account)
  {
    seq(|rows|, i requires 0 <= i < |rows| => (rows[i].id, rows[i].account))
  }

  /** The (id, value) assignments the category loader makes, in row order. */
  function CategoryPairs(rows: seq<CategoryRow>): (ps: Assoc<int, Category>)
    ensures |ps| == |rows| && forall i :: 0 <= i < |rows| ==> ps[i] == (rows[i].id, Stored(rows[i]))
  {
    seq(|rows|, i requires 0 <= i < |rows| => (rows[i].id, Stored(rows[i])))
  }

  /**
   * `Accounts._load_assets`: each id holds the account of its last row;
   * ids keep the position of their first row.
   */
  method LoadAssets(rows: seq<AccountRow>) returns (assets: Assoc<int, Account>)
    ensures Holds(assets, AccountPairs(rows))
  {
    assets := [];
    var n := 0;
    while n < |rows|
      invariant 0 <= n <= |rows|
      invariant Holds(assets, AccountPairs(rows[..n]))
    {
      var r := rows[n];
      PutHolds(assets, AccountPairs(rows[..n]), r.id, r.account);
      assets := Put(assets, r.id, r.account);
      assert AccountPairs(rows[..n + 1]) == AccountPairs(rows[..n]) + [(r.id, r.account)];
      n := n + 1;
    }
    assert rows[..n] == rows;
  }

  /** `Accounts._load_categories`: as for accounts, and a row that names itself as parent is stored without one. */
  method LoadCategories(rows: seq<CategoryRow>) returns (cats: Assoc<int, Category>)
    ensures Holds(cats, CategoryPairs(rows)) && NoSelfParent(cats)
  {
    cats := [];
    var n := 0;
    while n < |rows|
      invariant 0 <= n <= |rows|
      invariant Holds(cats, CategoryPairs(rows[..n])) && NoSelfParent(cats)
    {
      var r := rows[n];
      var parent := r.parentId;
      if parent == Some(r.id) { parent := None; }
      CategoryStep(cats, rows, n);
      cats := Put(cats, r.id, Category(parent, r.name));
      n := n + 1;
    }
    assert rows[..n] == rows;
  }

  /** Storing row n keeps the table holding the rows read so far, and no category its own parent. */
  lemma CategoryStep(cats: Assoc<int, Category>, rows: seq<CategoryRow>, n: int)
    requires 0 <= n < |rows| && Holds(cats, CategoryPairs(rows[..n])) && NoSelfParent(cats)
    ensures var next := Put(cats, rows[n].id, Stored(rows[n]));
      Holds(next, CategoryPairs(rows[..n + 1])) && NoSelfParent(next)
  {
    var r := rows[n];
    var next := Put(cats, r.id, Stored(r));
    PutHolds(cats, CategoryPairs(rows[..n]), r.id, Stored(r));
    assert CategoryPairs(rows[..n + 1]) == CategoryPairs(rows[..n]) + [(r.id, Stored(r))];
    forall i | 0 <= i < |next| ensures next[i].1.parent != Some(next[i].0) {
      if next[i].0 != r.id { assert next[i] == cats[i]; }
    }
  }

  /** `Accounts.__init__`: both tables loaded from their rows. */
  method Load(accountRows: seq<AccountRow>, categoryRows: seq<CategoryRow>) returns (t: Tables)
    ensures Holds(t.assets, AccountPairs(accountRows))
    ensures Holds(t.categories, CategoryPairs(categoryRows)) && NoSelfParent(t.categories)
  {
    var assets := LoadAssets(accountRows);
    var cats := LoadCategories(categoryRows);
    t := Tables(assets, cats);
  }

  /** A loaded table has an entry for exactly the ids of its rows, each holding the last such row. */
  lemma LoadedCategory(rows: seq<CategoryRow>, cats: Assoc<int, Category>, i: int)
    requires Holds(cats, CategoryPairs(rows))
    requires 0 <= i < |rows| && forall j :: i < j < |rows| ==> rows[j].id != rows[i].id
    ensures Get(cats, rows[i].id) == Some(Stored(rows[i]))
  {
    LastValueAt(CategoryPairs(rows), i);
  }

  /** s without any occurrence of k. */
  function Remove(s: seq<int>, k: int): (r: seq<int>)
    ensures forall x :: x in r <==> x in s && x != k
    ensures k in s ==> |r| < |s|
    ensures |r| <= |s|
  {
    if s == [] then []
    else (if s[0] == k then [] else [s[0]]) + Remove(s[1..], k)
  }

  /**
   * `Accounts._category`: the category's label after the name of its parent.
   * `unvisited` holds the ids not yet met on the way up. A missing id raises
   * KeyError; coming back to an id already met never ends in Python and is
   * reported as RecursionError.
   */
  function Walk(cats: Assoc<int, Category>, id: int, unvisited: seq<int>): (r: Result<string>)
    decreases |unvisited|
  {
    match Get(cats, id)
    case None => Err(KeyError(id))
    case Some(c) =>
      if id !in unvisited then Err(RecursionError)
      else
        match c.parent
        case None => Ok(c.name)
        case Some(p) =>
          match Walk(cats, p, Remove(unvisited, id))
          case Err(e) => Err(e)
          case Ok(s) => Ok(s + ":" + c.name)
  }

  /** `Accounts.category`: a row without a category is booked on "Category:Unknown". */
  function CategoryName(t: Tables, id: Option<int>): (r: Result<string>)
    ensures id.None? ==> r == Ok("Category:Unknown")
    ensures id.Some? && id.value !in Keys(t.categories) ==> r == Err(KeyError(id.value))
  {
    match id
    case None => Ok("Category:Unknown")
    case Some(i) => Walk(t.categories, i, Keys(t.categories))
  }

  /**
   * A chain of categories listed from the top-level one down: each is stored,
   * the first has no parent and every other one has its predecessor as parent.
   */
  predicate IsChain(cats: Assoc<int, Category>, chain: seq<int>)
  {
    && |chain| > 0
    && Distinct(chain)
    && (forall i :: 0 <= i < |chain| ==> Get(cats, chain[i]).Some?)
    && Get(cats, chain[0]).value.parent.None?
    && (forall i :: 0 < i < |chain| ==> Get(cats, chain[i]).value.parent == Some(chain[i - 1]))
  }

  function ChainLabels(cats: Assoc<int, Category>, chain: seq<int>): (ls: seq<string>)
    requires forall i :: 0 <= i < |chain| ==> Get(cats, chain[i]).Some?
    ensures |ls| == |chain| && forall i :: 0 <= i < |chain| ==> ls[i] == Get(cats, chain[i]).value.name
  {
    seq(|chain|, i requires 0 <= i < |chain| => Get(cats, chain[i]).value.name)
  }

  /** The name of a category is the labels of its chain from the top down, joined with ':'. */
  lemma {:induction false} WalkChain(cats: Assoc<int, Category>, chain: seq<int>, unvisited: seq<int>)
    requires IsChain(cats, chain)
    requires forall i :: 0 <= i < |chain| ==> chain[i] in unvisited
    ensures Walk(cats, chain[|chain| - 1], unvisited) == Ok(Join(":", ChainLabels(cats, chain)))
  {
    var n := |chain|;
    var last := chain[n - 1];
    var c := Get(cats, last).value;
    var labels := ChainLabels(cats, chain);
    if n > 1 {
      var up := chain[..n - 1];
      var rest := Remove(unvisited, last);
      assert Walk(cats, chain[n - 2], rest) == Ok(Join(":", ChainLabels(cats, up))) by {
        assert IsChain(cats, up);
        forall i | 0 <= i < |up| ensures up[i] in rest {
          assert up[i] == chain[i];
        }
        WalkChain(cats, up, rest);
      }
      WalkUp(cats, last, unvisited, Join(":", ChainLabels(cats, up)));
      assert labels[..n - 1] == ChainLabels(cats, up);
      JoinLast(":", labels);
    } else {
      WalkTop(cats, last, unvisited);
    }
  }

  /** A category with a parent is named after its parent's name. */
  lemma WalkUp(cats: Assoc<int, Category>, id: int, unvisited: seq<int>, s: string)
    requires Get(cats, id).Some? && id in unvisited && Get(cats, id).value.parent.Some?
    requires Walk(cats, Get(cats, id).value.parent.value, Remove(unvisited, id)) == Ok(s)
    ensures Walk(cats, id, unvisited) == Ok(s + ":" + Get(cats, id).value.name)
  {
  }

  /** A category without a parent is named by its label alone. */
  lemma WalkTop(cats: Assoc<int, Category>, id: int, unvisited: seq<int>)
    requires Get(cats, id).Some? && id in unvisited && Get(cats, id).value.parent.None?
    ensures Walk(cats, id, unvisited) == Ok(Get(cats, id).value.name)
  {
  }

  lemma JoinLast(sep: string, xs: seq<string>)
    requires |xs| > 1
    ensures Join(sep, xs) == Join(sep, xs[..|xs| - 1]) + sep + xs[|xs| - 1]
  {
  }

  /** `category(id)` names a category by its whole chain. */
  lemma CategoryChain(t: Tables, chain: seq<int>)
    requires IsChain(t.categories, chain)
    ensures CategoryName(t, Some(chain[|chain| - 1])) == Ok(Join(":", ChainLabels(t.categories, chain)))
  {
    forall i | 0 <= i < |chain| ensures chain[i] in Keys(t.categories) {
      assert Get(t.categories, chain[i]).Some?;
    }
    WalkChain(t.categories, chain, Keys(t.categories));
  }

  /** A category whose parent id is missing cannot be named. */
  lemma MissingParent(t: Tables, id: int, p: int)
    requires Get(t.categories, id).Some? && Get(t.categories, id).value.parent == Some(p)
    requires p !in Keys(t.categories)
    ensures CategoryName(t, Some(id)) == Err(KeyError(p))
  {
    var ks := Keys(t.categories);
    assert id in ks;
    assert Walk(t.categories, p, Remove(ks, id)) == Err(KeyError(p));
  }

  /** Two categories that are each other's parent: the walk never ends. */
  lemma ParentCycle(t: Tables, a: int, b: int)
    requires a != b
    requires Get(t.categories, a).Some? && Get(t.categories, a).value.parent == Some(b)
    requires Get(t.categories, b).Some? && Get(t.categories, b).value.parent == Some(a)
    ensures CategoryName(t, Some(a)) == Err(RecursionError)
  {
    var ks := Keys(t.categories);
    assert a in ks && b in Remove(ks, a);
    assert Walk(t.categories, a, Remove(Remove(ks, a), b)) == Err(RecursionError);
    assert Walk(t.categories, b, Remove(ks, a)) == Err(RecursionError);
  }

  /** Without the normalisation of the loader, a self-parent would never end. */
  lemma SelfParentRecursion(t: Tables, id: int)
    requires Get(t.categories, id).Some? && Get(t.categories, id).value.parent == Some(id)
    ensures CategoryName(t, Some(id)) == Err(RecursionError)
  {
    var ks := Keys(t.categories);
    assert id in ks;
    assert Walk(t.categories, id, Remove(ks, id)) == Err(RecursionError);
  }

  /** The loader's normalisation: a self-parent row becomes a top-level category named by its own label. */
  lemma SelfParentIsRoot(rows: seq<CategoryRow>, t: Tables, i: int)
    requires Holds(t.categories, CategoryPairs(rows))
    requires 0 <= i < |rows| && forall j :: i < j < |rows| ==> rows[j].id != rows[i].id
    requires rows[i].parentId == Some(rows[i].id)
    ensures CategoryName(t, Some(rows[i].id)) == Ok(rows[i].name)
  {
    LoadedCategory(rows, t.categories, i);
  }

  /** The account-type prefix of `Accounts.asset`, as the words it joins before the label. */
  function KindWords(kind: string): seq<string>
  {
    if kind == "CASH" then ["Assets", "Cash"]
    else if kind == "BANK" then ["Assets", "Bank"]
    else if kind == "ASSET" then ["Assets"]
    else if kind == "CCARD" then ["Liabilities", "CreditCard"]
    else if kind == "LIABILITY" then ["Liabilities"]
    else []
  }

  /** The text that stands before the label in an account name of this type. */
  function KindPrefix(kind: string): string
  {
    if kind == "CASH" then "Assets:Cash:"
    else if kind == "BANK" then "Assets:Bank:"
    else if kind == "ASSET" then "Assets:"
    else if kind == "CCARD" then "Liabilities:CreditCard:"
    else if kind == "LIABILITY" then "Liabilities:"
    else ""
  }

  lemma KindJoin(kind: string, name: string)
    ensures Join(":", KindWords(kind) + [name]) == KindPrefix(kind) + name
  {
    if kind == "CASH" || kind == "BANK" || kind == "ASSET" {
      AssetKindJoin(kind, name);
    } else if kind == "CCARD" || kind == "LIABILITY" {
      LiabilityKindJoin(kind, name);
    } else {
      assert KindWords(kind) + [name] == [name];
    }
  }

  lemma AssetKindJoin(kind: string, name: string)
    requires kind == "CASH" || kind == "BANK" || kind == "ASSET"
    ensures Join(":", KindWords(kind) + [name]) == KindPrefix(kind) + name
  {
    if kind == "CASH" {
      TwoWords(kind, "Assets", "Cash", name);
    } else if kind == "BANK" {
      TwoWords(kind, "Assets", "Bank", name);
    } else {
      OneWord(kind, "Assets", name);
    }
  }

  lemma LiabilityKindJoin(kind: string, name: string)
    requires kind == "CCARD" || kind == "LIABILITY"
    ensures Join(":", KindWords(kind) + [name]) == KindPrefix(kind) + name
  {
    if kind == "CCARD" {
      TwoWords(kind, "Liabilities", "CreditCard", name);
    } else {
      OneWord(kind, "Liabilities", name);
    }
  }

  lemma OneWord(kind: string, a: string, name: string)
    requires KindWords(kind) == [a] && KindPrefix(kind) == a + ":"
    ensures Join(":", KindWords(kind) + [name]) == KindPrefix(kind) + name
  {
    Join2(a, name);
    assert [a] + [name] == [a, name];
  }

  lemma TwoWords(kind: string, a: string, b: string, name: string)
    requires KindWords(kind) == [a, b] && KindPrefix(kind) == a + ":" + b + ":"
    ensures Join(":", KindWords(kind) + [name]) == KindPrefix(kind) + name
  {
    Join3(a, b, name);
    assert [a, b] + [name] == [a, b, name];
  }

  lemma Join2(a: string, b: string)
    ensures Join(":", [a, b]) == a + ":" + b
  {
    assert [a, b][..1] == [a];
  }

  lemma Join3(a: string, b: string, c: string)
    ensures Join(":", [a, b, c]) == a + ":" + b + ":" + c
  {
    assert [a, b, c][..2] == [a, b];
    Join2(a, b);
  }

  /** `Accounts.asset`: the type's words and the account label joined with ':'. */
  function Asset(t: Tables, id: int): (r: Result<string>)
    ensures Get(t.assets, id).None? ==> r == Err(KeyError(id))
    ensures Get(t.assets, id).Some? ==> r == Ok(KindPrefix(Get(t.assets, id).value.kind) + Get(t.assets, id).value.name)
  {
    match Get(t.assets, id)
    case None => Err(KeyError(id))
    case Some(a) => KindJoin(a.kind, a.name); Ok(Join(":", KindWords(a.kind) + [a.name]))
  }

  /** `Accounts.asset_currency`. */
  function AssetCurrency(t: Tables, id: int): (r: Result<string>)
    ensures r.Ok? <==> id in Keys(t.assets)
    ensures r.Err? ==> r == Err(KeyError(id))
  {
    match Get(t.assets, id)
    case None => Err(KeyError(id))
    case Some(a) => Ok(a.currency)
  }

  /** The category ids that `labels` names: all but the split category 0, in table order. */
  function NamedCategories(ids: seq<int>): (r: seq<int>)
    ensures forall k :: k in r <==> k in ids && k != 0
  {
    if ids == [] then [] else NamedCategories(ids[..|ids| - 1]) + (if ids[|ids| - 1] == 0 then [] else [ids[|ids| - 1]])
  }

  /** The account names of the table, in table order. */
  function AssetNames(t: Tables): (r: seq<string>)
    ensures |r| == |t.assets| && forall i :: 0 <= i < |t.assets| ==> Ok(r[i]) == Asset(t, t.assets[i].0)
  {
    seq(|t.assets|, i requires 0 <= i < |t.assets| => assert t.assets[i].0 in Keys(t.assets); Asset(t, t.assets[i].0).value)
  }

  /** The names of the categories ids other than 0, in order; the first one that cannot be named stops the list. */
  function CategoryNames(t: Tables, ids: seq<int>): Result<seq<string>>
  {
    if ids == [] then Ok([])
    else
      match CategoryNames(t, ids[..|ids| - 1])
      case Err(e) => Err(e)
      case Ok(cs) =>
        var id := ids[|ids| - 1];
        if id == 0 then Ok(cs)
        else
          match CategoryName(t, Some(id))
          case Err(e) => Err(e)
          case Ok(c) => Ok(cs + [c])
  }

  /** The category names succeed exactly when every named id can be named, and then list them in order. */
  lemma {:induction false} CategoryNamesSpec(t: Tables, ids: seq<int>)
    ensures var r := CategoryNames(t, ids); var named := NamedCategories(ids);
      && (r.Ok? <==> forall k :: k in named ==> CategoryName(t, Some(k)).Ok?)
      && (r.Ok? ==> |r.value| == |named| && forall j :: 0 <= j < |named| ==> Ok(r.value[j]) == CategoryName(t, Some(named[j])))
      && (r.Err? ==> exists k :: k in named && CategoryName(t, Some(k)) == Err(r.error))
  {
    if ids != [] {
      var front := ids[..|ids| - 1];
      CategoryNamesSpec(t, front);
    }
  }

  /** The first loop of `labels`: one name per account, in table order. */
  method AssetLabels(t: Tables) returns (out: seq<string>)
    ensures out == AssetNames(t)
  {
    out := [];
    var i := 0;
    while i < |t.assets|
      invariant 0 <= i <= |t.assets| && out == AssetNames(t)[..i]
    {
      var a := Asset(t, t.assets[i].0);
      assert t.assets[i].0 in Keys(t.assets);
      PrefixStep(AssetNames(t), i);
      out := out + [a.value];
      i := i + 1;
    }
  }

  lemma PrefixStep<T>(s: seq<T>, i: int)
    requires 0 <= i < |s|
    ensures s[..i + 1] == s[..i] + [s[i]]
  {
  }

  /**
   * `Accounts.labels`: every account's name in table order, then every
   * category's name except that of category 0. A category that cannot be named
   * raises, and `"\n".join` then prints nothing.
   */
  method Labels(t: Tables) returns (r: Result<seq<string>>)
    ensures CategoryNames(t, Keys(t.categories)).Err? ==> r == Err(CategoryNames(t, Keys(t.categories)).error)
    ensures CategoryNames(t, Keys(t.categories)).Ok? ==> r == Ok(AssetNames(t) + CategoryNames(t, Keys(t.categories)).value)
  {
    var out := AssetLabels(t);
    var keys := Keys(t.categories);
    ghost var names: seq<string> := [];
    var n := 0;
    while n < |keys|
      invariant 0 <= n <= |keys|
      invariant CategoryNames(t, keys[..n]) == Ok(names)
      invariant out == AssetNames(t) + names
    {
      assert keys[..n + 1][..n] == keys[..n];
      var id := keys[n];
      if id != 0 {
        var c := CategoryName(t, Some(id));
        if c.Err? {
          ErrStops(t, keys, n + 1);
          return Err(c.error);
        }
        out := out + [c.value];
        names := names + [c.value];
      }
      n := n + 1;
    }
    assert keys[..n] == keys;
    return Ok(out);
  }

  /** Once the names fail, they fail with the same error whatever ids follow. */
  lemma {:induction false} ErrStops(t: Tables, ids: seq<int>, n: int)
    requires 0 <= n <= |ids| && CategoryNames(t, ids[..n]).Err?
    ensures CategoryNames(t, ids) == CategoryNames(t, ids[..n])
    decreases |ids| - n
  {
    if n < |ids| {
      assert ids[..n + 1][..n] == ids[..n];
      ErrStops(t, ids, n + 1);
    } else {
      assert ids[..n] == ids;
    }
  }
}
