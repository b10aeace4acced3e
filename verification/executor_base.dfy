/** `CommandExecutorBase`: the helpers every domain executor uses to read a
    command's parameters and to fetch and save the documents a command
    changes.

    The document database is a map per tale version from document id to
    document; what a document holds besides its id and the page that last
    touched it is a type parameter. `LastUpdate` (a clock reading) is left
    out, and so are the count and timeline queries. */
module ExecutorBase {
  import opened Wrappers
  import opened Text
  import opened Guids
  import opened Commands

  /** `CommandData` of an exception built from a message alone. */
  const NoCommandData: string := "No command data available"

  // ------------------------------------------------------------- parameters

  /** A typed command parameter: the raw value of its type enumeration,
      which may lie outside the four named types, and its value. */
  datatype Parameter<T> = Parameter(code: int, value: T)

  /** The handlers an executor offers for one parameter, one per type; a
      missing one means the command does not accept that action. */
  datatype Handlers<H> = Handlers(onSet: Option<H>, onReset: Option<H>, onAdd: Option<H>, onRemove: Option<H>)

  /** The handler for a parameter type. */
  function HandlerFor<H>(hs: Handlers<H>, kind: ParamType): Option<H> {
    match kind
    case Set => hs.onSet
    case Reset => hs.onReset
    case Add => hs.onAdd
    case Remove => hs.onRemove
  }

  /** The action word of a parameter type in the rejection message. */
  function ActionName(kind: ParamType): string {
    match kind
    case Set => "set"
    case Reset => "reset"
    case Add => "add"
    case Remove => "remove"
  }

  /** The rejection of a parameter whose type has no handler. */
  function Refused(kind: ParamType): Fault {
    CommandValidation(NoCommandData, "Command does not accept " + ActionName(kind) + " action")
  }

  /** The failure for a parameter type outside the enumeration's four
      values; an undefined enumeration value prints as its number. */
  function Unrecognized(code: int): Fault {
    InvalidOperation("Parameter type " + IntToString(code) + " is unrecognized")
  }

  /** `Apply`: the default when there is no parameter, otherwise the value
      the handler for the parameter's type makes of the parameter's value.
      A type without a handler is refused. */
  function Apply<T>(default: T, par: Option<Parameter<T>>, hs: Handlers<T -> T>): (r: Result<T>)
    ensures par.None? ==> r == Ok(default)
    ensures par.Some? && !(0 <= par.value.code < 4) ==> r == Err(Unrecognized(par.value.code))
    ensures par.Some? && 0 <= par.value.code < 4 ==>
      var kind := ParamTypeOfCode(par.value.code).value;
      (r.Ok? <==> HandlerFor(hs, kind).Some?) &&
      (r.Ok? ==> r.value == HandlerFor(hs, kind).value(par.value.value)) &&
      (r.Err? ==> r.error == Refused(kind))
  {
    match par
    case None => Ok(default)
    case Some(p) =>
      match ParamTypeOfCode(p.code)
      case Err(_) => Err(Unrecognized(p.code))
      case Ok(kind) =>
        match HandlerFor(hs, kind)
        case None => Err(Refused(kind))
        case Some(f) => Ok(f(p.value))
  }

  /** `ApplyDirect`: the handler for the parameter's type acts on the
      executor's state `s`; with no parameter the state is left alone. A
      type without a handler is refused. */
  function ApplyDirect<S, T>(s: S, par: Option<Parameter<T>>, hs: Handlers<(S, T) -> S>): (r: Result<S>)
    ensures par.None? ==> r == Ok(s)
    ensures par.Some? && !(0 <= par.value.code < 4) ==> r == Err(Unrecognized(par.value.code))
    ensures par.Some? && 0 <= par.value.code < 4 ==>
      var kind := ParamTypeOfCode(par.value.code).value;
      (r.Ok? <==> HandlerFor(hs, kind).Some?) &&
      (r.Ok? ==> r.value == HandlerFor(hs, kind).value(s, par.value.value)) &&
      (r.Err? ==> r.error == Refused(kind))
  {
    match par
    case None => Ok(s)
    case Some(p) =>
      match ParamTypeOfCode(p.code)
      case Err(_) => Err(Unrecognized(p.code))
      case Ok(kind) =>
        match HandlerFor(hs, kind)
        case None => Err(Refused(kind))
        case Some(f) => Ok(f(s, p.value))
  }

  /** Each `Apply` handler as an action that replaces the state with its
      result. */
  function AsActions<T>(hs: Handlers<T -> T>): (r: Handlers<(T, T) -> T>)
    ensures r.onSet.Some? <==> hs.onSet.Some?
    ensures r.onReset.Some? <==> hs.onReset.Some?
    ensures r.onAdd.Some? <==> hs.onAdd.Some?
    ensures r.onRemove.Some? <==> hs.onRemove.Some?
  {
    Handlers(Replacing(hs.onSet), Replacing(hs.onReset), Replacing(hs.onAdd), Replacing(hs.onRemove))
  }

  function Replacing<T>(f: Option<T -> T>): Option<(T, T) -> T> {
    if f.Some? then Some((_: T, v: T) => f.value(v)) else None
  }

  /** The two dispatchers agree: applying a parameter to a current value is
      the same as letting the matching handler, as an action, replace that
      value. The same parameters are refused by both. */
  lemma ApplyIsApplyDirect<T>(current: T, par: Option<Parameter<T>>, hs: Handlers<T -> T>)
    ensures Apply(current, par, hs) == ApplyDirect(current, par, AsActions(hs))
  {
    if par.Some? && 0 <= par.value.code < 4 {
      var kind := ParamTypeOfCode(par.value.code).value;
      assert HandlerFor(AsActions(hs), kind) == Replacing(HandlerFor(hs, kind));
    }
  }

  /** `Append`: the array with one more entry at its end. */
  function Append<T>(source: seq<T>, entry: T): (r: seq<T>)
    ensures |r| == |source| + 1
    ensures r[..|source|] == source && r[|source|] == entry
  {
    source + [entry]
  }

  // -------------------------------------------------------------- documents

  /** A stored document: its id, the page that last changed it, and its
      content. */
  datatype Document<C> = Document(id: string, lastChapter: int, lastPage: int, content: C)

  /** The document database of one tale version: documents by id. */
  type Documents<C> = map<string, Document<C>>

  /** The execution context the executor was set up with. */
  datatype Context = Context(taleId: Guid, versionId: Guid, chapter: int, page: int)

  /** The id a document of type `typeName` named `name` is stored under. */
  function DocumentId(typeName: string, name: string): (r: string)
    ensures |r| == |typeName| + 1 + |name|
    ensures r[..|typeName|] == typeName && r[|typeName|] == ':' && r[|typeName| + 1..] == name
  {
    typeName + ":" + name
  }

  /** When type names hold no ':', a document id names exactly one type and
      one document. */
  lemma DocumentIdInjective(typeA: string, nameA: string, typeB: string, nameB: string)
    requires ':' !in typeA && ':' !in typeB
    requires DocumentId(typeA, nameA) == DocumentId(typeB, nameB)
    ensures typeA == typeB && nameA == nameB
  {
  }

  /** A lookup by id: a required document that is missing throws a
      CommandExecutionException with the given message, and when the token
      has fired the lookup ends in a cancellation. */
  function Lookup<C>(docs: Documents<C>, id: string, required: bool, missing: string, cancelled: bool): (r: Result<Option<Document<C>>>)
    ensures id !in docs && required ==> r == Err(CommandExecution(NoCommandData, missing))
    ensures !(id !in docs && required) && cancelled ==> r == Err(OperationCanceled)
    ensures r.Ok? ==> !cancelled && (r.value.Some? <==> id in docs) && (r.value.Some? ==> r.value.value == docs[id])
  {
    if id !in docs && required then Err(CommandExecution(NoCommandData, missing))
    else if cancelled then Err(OperationCanceled)
    else Ok(if id in docs then Some(docs[id]) else None)
  }

  /** `FetchAsync` by name: the document "typeName:name"; the message of a
      missing required one is "typeName name not found". */
  function Fetch<C>(docs: Documents<C>, typeName: string, name: string, required: bool, cancelled: bool): (r: Result<Option<Document<C>>>)
    ensures r.Ok? <==> !cancelled && (required ==> DocumentId(typeName, name) in docs)
    ensures r.Ok? && r.value.Some? ==> DocumentId(typeName, name) in docs && r.value.value == docs[DocumentId(typeName, name)]
    ensures DocumentId(typeName, name) !in docs && required ==>
      r == Err(CommandExecution(NoCommandData, typeName + " " + name + " not found"))
  {
    Lookup(docs, DocumentId(typeName, name), required, typeName + " " + name + " not found", cancelled)
  }

  /** `FetchAsync` by number: the document "typeName:id"; the message of a
      missing required one is "typeName #id not found". */
  function FetchById<C>(docs: Documents<C>, typeName: string, id: int, required: bool, cancelled: bool): (r: Result<Option<Document<C>>>)
    ensures r.Ok? <==> !cancelled && (required ==> DocumentId(typeName, IntToString(id)) in docs)
    ensures r.Ok? && r.value.Some? ==> DocumentId(typeName, IntToString(id)) in docs && r.value.value == docs[DocumentId(typeName, IntToString(id))]
    ensures DocumentId(typeName, IntToString(id)) !in docs && required ==>
      r == Err(CommandExecution(NoCommandData, typeName + " #" + IntToString(id) + " not found"))
  {
    Lookup(docs, DocumentId(typeName, IntToString(id)), required, typeName + " #" + IntToString(id) + " not found", cancelled)
  }

  /** `FetchExtensionAsync`: the document "docType:name", named in the
      message by the extension's class name. It does not look at the token
      after the lookup. */
  function FetchExtension<C>(docs: Documents<C>, docType: string, className: string, name: string, required: bool): (r: Result<Option<Document<C>>>)
    ensures r.Ok? <==> (required ==> DocumentId(docType, name) in docs)
    ensures r.Ok? && r.value.Some? ==> DocumentId(docType, name) in docs && r.value.value == docs[DocumentId(docType, name)]
    ensures r.Err? ==> r == Err(CommandExecution(NoCommandData, className + " " + name + " not found"))
  {
    Lookup(docs, DocumentId(docType, name), required, className + " " + name + " not found", false)
  }

  /** `Finalize`: the document, after the executor's own last touches
      (`prepare`), is stamped with the context's chapter and page and
      overwrites the stored one. The token is looked at before and after the
      write, so a cancellation after the write still leaves the document
      written. */
  function Finalize<C>(docs: Documents<C>, ctx: Context, doc: Document<C>, prepare: Document<C> -> Document<C>,
                       cancelledBefore: bool, cancelledAfter: bool): (r: (Documents<C>, Result<()>))
    ensures cancelledBefore ==> r == (docs, Err(OperationCanceled))
    ensures !cancelledBefore ==>
      r.0 == docs[prepare(doc).id := prepare(doc).(lastChapter := ctx.chapter, lastPage := ctx.page)]
    ensures r.1.Ok? <==> !cancelledBefore && !cancelledAfter
  {
    var stamped := prepare(doc).(lastChapter := ctx.chapter, lastPage := ctx.page);
    if cancelledBefore then (docs, Err(OperationCanceled))
    else
      var written := docs[stamped.id := stamped];
      (written, if cancelledAfter then Err(OperationCanceled) else Ok(()))
  }

  /** A document saved by `Finalize` is what the next fetch of it returns,
      carrying the page that saved it; every other document is untouched. */
  lemma FinalizeThenFetch<C>(docs: Documents<C>, ctx: Context, typeName: string, name: string, doc: Document<C>,
                             cancelledAfter: bool, required: bool)
    requires doc.id == DocumentId(typeName, name)
    ensures var written := Finalize(docs, ctx, doc, d => d, false, cancelledAfter).0;
      Fetch(written, typeName, name, required, false) == Ok(Some(doc.(lastChapter := ctx.chapter, lastPage := ctx.page))) &&
      forall id :: id in docs && id != doc.id ==> id in written && written[id] == docs[id]
  {
  }
}
