/**
 * The sentence-embedding wrapper: guards and clean-up around the model's `encode`, which
 * stays abstract, and the process-wide single instance.
 */
module Embedding {
  import opened Wrappers
  import opened PyText
  import opened VectorIndex

  /** A loaded model: its embedding width and its text-to-vector map. */
  datatype Model = Model(dim: nat, encode: string -> Vector)

  datatype EmbedError =
    | EmptyQuery        // ValueError("Query cannot be empty")
    | NoModel           // `encode` called on the class attribute `_model = None`
    | ModelLoadFailed   // the exception re-raised by `_initialize_model`

  /** The width reported when no model is loaded (all-MiniLM-L6-v2). */
  const DefaultDim: nat := 384

  /** `[text.strip() for text in texts if text.strip()]` */
  function Survivors(texts: seq<string>): (r: seq<string>)
    ensures |r| <= |texts|
    ensures forall x :: x in r ==> x != [] && exists i :: 0 <= i < |texts| && x == Strip(texts[i])
  {
    NonEmpty(StripAll(texts))
  }

  /** No text is empty or whitespace only. */
  predicate NoneBlank(texts: seq<string>) {
    forall i :: 0 <= i < |texts| ==> Strip(texts[i]) != []
  }

  /** A non-empty list has no blank text exactly when its head and its tail have none. */
  lemma BlankSplit(chunks: seq<string>)
    requires chunks != []
    ensures NoneBlank(chunks) <==> Strip(chunks[0]) != [] && NoneBlank(chunks[1..])
  {
    NoneBlankParts(chunks);
    NoneBlankJoined(chunks);
  }

  lemma NoneBlankParts(chunks: seq<string>)
    requires chunks != []
    ensures NoneBlank(chunks) ==> Strip(chunks[0]) != [] && NoneBlank(chunks[1..])
  {
  }

  lemma NoneBlankJoined(chunks: seq<string>)
    requires chunks != []
    ensures Strip(chunks[0]) != [] && NoneBlank(chunks[1..]) ==> NoneBlank(chunks)
  {
    var rest := chunks[1..];
    if !NoneBlank(chunks) {
      var i :| 0 <= i < |chunks| && Strip(chunks[i]) == [];
      if i > 0 {
        assert rest[i - 1] == chunks[i];
      }
    }
  }

  /** The survivors are the stripped texts, in order, each non-blank and already stripped;
      all of them survive exactly when none is blank, and otherwise strictly fewer remain. */
  lemma SurvivorsSpec(texts: seq<string>)
    ensures forall x :: x in Survivors(texts) ==> x != [] && Strip(x) == x
    ensures NoneBlank(texts) <==> Survivors(texts) == StripAll(texts)
    ensures !NoneBlank(texts) ==> |Survivors(texts)| < |texts|
  {
    var xs := StripAll(texts);
    NonEmptyKeepsAll(xs);
    forall x | x in Survivors(texts) ensures Strip(x) == x {
      var i :| 0 <= i < |xs| && xs[i] == x;
      StripIdempotent(texts[i]);
    }
  }

  /** `model.encode(texts)`: one row per text. */
  function EncodeAll(m: Model, texts: seq<string>): (rows: seq<Vector>)
    ensures |rows| == |texts|
    ensures forall i :: 0 <= i < |texts| ==> rows[i] == m.encode(texts[i])
  {
    seq(|texts|, i requires 0 <= i < |texts| => m.encode(texts[i]))
  }

  /** The embedder object; `model` is `None` when loading failed. */
  class Embedder {
    var model: Option<Model>

    /** `object.__new__`: the instance sees the class attribute `_model = None`. */
    constructor ()
      ensures model == None
    {
      model := None;
    }

    /** `_initialize_model`: on failure the model stays unset and the error is raised. */
    method InitializeModel(load: Option<Model>) returns (r: Result<(), EmbedError>)
      modifies this
      ensures load.Some? ==> r == Ok(()) && model == load
      ensures load.None? ==> r == Err(ModelLoadFailed) && model == old(model)
    {
      if load.None? {
        return Err(ModelLoadFailed);
      }
      model := load;
      return Ok(());
    }

    /** `embed_texts`: empty input, or input that is all blank, gives no rows without
        touching the model; otherwise one row per surviving text, in order. */
    function EmbedTexts(texts: seq<string>): (r: Result<seq<Vector>, EmbedError>)
      reads this
      ensures texts == [] ==> r == Ok([])
      ensures Survivors(texts) == [] ==> r == Ok([])
      ensures Survivors(texts) != [] ==> (r.Err? <==> model.None?)
      ensures r.Err? ==> r.error == NoModel
      ensures r.Ok? && r.value != [] ==> model.Some? && r.value == EncodeAll(model.value, Survivors(texts))
      ensures r.Ok? ==> |r.value| == |Survivors(texts)|
    {
      if texts == [] then Ok([])
      else
        var kept := Survivors(texts);
        if kept == [] then Ok([])
        else if model.None? then Err(NoModel)
        else Ok(EncodeAll(model.value, kept))
    }

    /** `embed_query`: a blank query is refused before the model is used; otherwise the
        unstripped query is encoded into a single row. */
    function EmbedQuery(query: string): (r: Result<seq<Vector>, EmbedError>)
      reads this
      ensures r == Err(EmptyQuery) <==> Strip(query) == []
      ensures Strip(query) != [] ==> (r.Err? <==> model.None?)
      ensures r.Ok? ==> model.Some? && r.value == [model.value.encode(query)]
    {
      if query == [] || Strip(query) == [] then Err(EmptyQuery)
      else if model.None? then Err(NoModel)
      else Ok([model.value.encode(query)])
    }

    /** The `embedding_dim` property. */
    function EmbeddingDim(): (d: nat)
      reads this
      ensures model.Some? ==> d == model.value.dim
      ensures model.None? ==> d == DefaultDim
    {
      if model.Some? then model.value.dim else DefaultDim
    }
  }

  /** The class-level state of `Embedder`: the one instance, once created. */
  class EmbedderClass {
    var instance: Embedder?
    ghost var loads: nat

    constructor ()
      ensures instance == null && loads == 0
    {
      instance := null;
      loads := 0;
    }

    /** `Embedder()`: the first call creates the instance, records it, then loads the model
        (a failed load is raised but the half-built instance stays recorded); every later
        call returns that same instance and loads nothing. */
    method New(load: Option<Model>) returns (r: Result<Embedder, EmbedError>)
      modifies this
      ensures old(instance) != null ==> r == Ok(old(instance)) && instance == old(instance) && loads == old(loads)
      ensures old(instance) == null ==> instance != null && fresh(instance) && loads == old(loads) + 1
      ensures old(instance) == null && load.Some? ==> r == Ok(instance) && instance.model == load
      ensures old(instance) == null && load.None? ==> r == Err(ModelLoadFailed) && instance.model == None
    {
      if instance != null {
        return Ok(instance);
      }
      var e := new Embedder();
      instance := e;
      loads := loads + 1;
      var init := e.InitializeModel(load);
      if init.Err? {
        return Err(init.error);
      }
      return Ok(e);
    }
  }

  /** Two constructions share one instance and load the model once. */
  method ConstructTwice(cls: EmbedderClass, first: Option<Model>, second: Option<Model>)
    returns (a: Result<Embedder, EmbedError>, b: Result<Embedder, EmbedError>)
    requires cls.instance == null
    modifies cls
    ensures cls.loads == old(cls.loads) + 1
    ensures b == Ok(cls.instance)
    ensures first.Some? ==> a == b
  {
    a := cls.New(first);
    b := cls.New(second);
  }
}
