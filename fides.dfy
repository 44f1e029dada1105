/** The category side of the pipeline (fides.py): reducing each raw Fides
    category record to its `fides_key` and `description`, and the snapshot
    file that carries the raw records from the taxonomy fetch to the
    classification run. */
module Fides {
  import opened PyValues

  /** Name of the snapshot file both entry points use by default. */
  const DefaultSnapshot := "fides_categories.txt"

  /** A record that has already been reduced: exactly the two fields. */
  predicate IsSimplified(c: Value) {
    c.Object? && c.fields.Keys == {"fides_key", "description"}
  }

  /** One element of the list comprehension: the dict display
      `{'fides_key': c['fides_key'], 'description': c['description']}`.
      `c['fides_key']` is evaluated first, so its KeyError wins. */
  function SimplifyCategory(c: Value): (r: Result<Value>)
    ensures !c.Object? ==> r == Failure(TypeError)
    ensures c.Object? && "fides_key" !in c.fields ==> r == Failure(KeyError(Str("fides_key")))
    ensures c.Object? && "fides_key" in c.fields && "description" !in c.fields
            ==> r == Failure(KeyError(Str("description")))
    ensures r.Success? <==> c.Object? && "fides_key" in c.fields && "description" in c.fields
    ensures r.Success? ==> IsSimplified(r.value)
    ensures r.Success? ==> r.value.fields["fides_key"] == c.fields["fides_key"]
    ensures r.Success? ==> r.value.fields["description"] == c.fields["description"]
  {
    if !c.Object? then Failure(TypeError)
    else if "fides_key" !in c.fields then Failure(KeyError(Str("fides_key")))
    else if "description" !in c.fields then Failure(KeyError(Str("description")))
    else Success(Object(map["fides_key" := c.fields["fides_key"],
                            "description" := c.fields["description"]]))
  }

  /** `extract_simplified_categories`: the comprehension over the whole list.
      It raises the error of the first record that cannot be reduced;
      otherwise it keeps length and order. */
  function ExtractSimplifiedCategories(categories: seq<Value>): (r: Result<seq<Value>>)
    ensures r.Success? <==> forall i :: 0 <= i < |categories| ==> SimplifyCategory(categories[i]).Success?
    ensures r.Success? ==> |r.value| == |categories|
    ensures r.Success? ==> forall i :: 0 <= i < |categories| ==> SimplifyCategory(categories[i]) == Success(r.value[i])
    ensures r.Failure? ==> exists i :: 0 <= i < |categories|
                                    && (forall j :: 0 <= j < i ==> SimplifyCategory(categories[j]).Success?)
                                    && SimplifyCategory(categories[i]) == Failure(r.error)
  {
    if categories == [] then Success([])
    else
      var first :- SimplifyCategory(categories[0]);
      var rest :- ExtractSimplifiedCategories(categories[1..]);
      assert forall i :: 1 <= i < |categories| ==> categories[i] == categories[1..][i - 1];
      Success([first] + rest)
  }

  /** An empty list reduces to an empty list. */
  lemma ExtractEmpty()
    ensures ExtractSimplifiedCategories([]) == Success([])
  {
  }

  /** A record that has been reduced reduces to itself. */
  lemma SimplifyCategoryFixpoint(c: Value)
    requires IsSimplified(c)
    ensures SimplifyCategory(c) == Success(c)
  {
    var r := SimplifyCategory(c).value;
    assert r.fields.Keys == c.fields.Keys;
    assert r.fields == c.fields;
  }

  /** Reducing the reduced list again changes nothing: categorize.py
      re-applies the reduction to whatever the snapshot holds, and gets the
      same categories whether the snapshot holds raw or reduced records. */
  lemma {:induction false} ExtractIdempotent(categories: seq<Value>)
    requires ExtractSimplifiedCategories(categories).Success?
    ensures var simplified := ExtractSimplifiedCategories(categories).value;
            ExtractSimplifiedCategories(simplified) == Success(simplified)
  {
    var simplified := ExtractSimplifiedCategories(categories).value;
    forall i | 0 <= i < |simplified|
      ensures SimplifyCategory(simplified[i]) == Success(simplified[i])
    {
      SimplifyCategoryFixpoint(simplified[i]);
    }
    var again := ExtractSimplifiedCategories(simplified);
    assert again.Success?;
    assert |again.value| == |simplified|;
    forall i | 0 <= i < |simplified|
      ensures again.value[i] == simplified[i]
    {
      assert SimplifyCategory(simplified[i]) == Success(again.value[i]);
    }
    assert again.value == simplified;
  }

  /** Files on disk, as far as the snapshot is concerned: a JSON list per
      file name. */
  type Store = map<string, seq<Value>>

  /** `save_categories_to_file`: (over)writes the file with the list. */
  function SaveCategories(store: Store, categories: seq<Value>, filename: string): (s: Store)
    ensures s.Keys == store.Keys + {filename}
    ensures s[filename] == categories
    ensures forall f :: f in store && f != filename ==> s[f] == store[f]
  {
    store[filename := categories]
  }

  /** `load_categories_from_file`: the saved list, or the "File not found"
      failure. */
  function LoadCategories(store: Store, filename: string): (r: Result<seq<Value>>)
    ensures r.Success? <==> filename in store
    ensures r.Success? ==> r.value == store[filename]
    ensures r.Failure? ==> r.error == FileNotFound(filename)
  {
    if filename in store then Success(store[filename]) else Failure(FileNotFound(filename))
  }

  /** What a classification run starts from (categorize.py:42): load the
      default snapshot and reduce it. */
  function CategoriesForClassification(store: Store): (r: Result<seq<Value>>)
    ensures DefaultSnapshot !in store ==> r == Failure(FileNotFound(DefaultSnapshot))
    ensures DefaultSnapshot in store ==> r == ExtractSimplifiedCategories(store[DefaultSnapshot])
    ensures r.Success? ==> forall i :: 0 <= i < |r.value| ==> IsSimplified(r.value[i])
  {
    var loaded :- LoadCategories(store, DefaultSnapshot);
    ExtractSimplifiedCategories(loaded)
  }

  /** The fetch branch of fides.py's entry point, after the HTTP request:
      reduce the fetched records (reporting their number) and then save the
      RAW records to the default snapshot. A failing reduction aborts before
      anything is saved. */
  function FetchAndPersist(store: Store, fetched: seq<Value>): (r: Result<(seq<Value>, Store)>)
    ensures r.Success? <==> ExtractSimplifiedCategories(fetched).Success?
    ensures r.Success? ==> r.value.0 == ExtractSimplifiedCategories(fetched).value
    ensures r.Success? ==> LoadCategories(r.value.1, DefaultSnapshot) == Success(fetched)
    ensures r.Success? ==> r.value.1.Keys == store.Keys + {DefaultSnapshot}
    ensures r.Success? ==> forall f :: f in store && f != DefaultSnapshot ==> r.value.1[f] == store[f]
  {
    var categories :- ExtractSimplifiedCategories(fetched);
    Success((categories, SaveCategories(store, fetched, DefaultSnapshot)))
  }

  /** The classification run sees exactly the categories the taxonomy
      fetch reported, although the snapshot holds the raw records. */
  lemma SnapshotRoundTrip(store: Store, fetched: seq<Value>)
    requires FetchAndPersist(store, fetched).Success?
    ensures CategoriesForClassification(FetchAndPersist(store, fetched).value.1)
            == Success(FetchAndPersist(store, fetched).value.0)
  {
  }

  /** The same holds when the snapshot was written with the reduced records
      instead, as the docstring of `save_categories_to_file` (fides.py:59-64)
      describes it. */
  lemma ReducedSnapshotRoundTrip(store: Store, fetched: seq<Value>)
    requires ExtractSimplifiedCategories(fetched).Success?
    ensures var categories := ExtractSimplifiedCategories(fetched).value;
            CategoriesForClassification(SaveCategories(store, categories, DefaultSnapshot))
            == Success(categories)
  {
    ExtractIdempotent(fetched);
  }
}
