/**
 * The LSP server on top of the JSON-RPC dispatcher (server/server.go): the registration of the
 * handler's methods and notifications, the `initialize`/`shutdown` lifecycle and the merge of
 * explicitly declared capabilities with the auto-detected ones.
 */
module Server {
  import opened Wrappers
  import opened JsonRpcErrors
  import opened JsonRpcMessage
  import opened JsonRpcHandler
  import opened Capabilities

  datatype ServerInfo = ServerInfo(name: string, version: Option<string>)

  /** What `Initialize` returns to the client. */
  datatype InitializeResult = InitializeResult(capabilities: ServerCapabilities, serverInfo: Option<ServerInfo>)

  /**
   * The user's handler as the server sees it: the interfaces it implements and, for the methods
   * it serves, what it does. `decode(method, params)` is `json.Unmarshal` of the params into the
   * method's parameter type (the error text on failure); `call` and `notify` are the typed
   * handler methods once the params are decoded; `encode` is `json.Marshal` of an
   * `InitializeResult`.
   */
  datatype LanguageServer = LanguageServer(
    implements: set<HandlerIface>,
    decode: (string, Json) -> Option<string>,
    call: (string, Context, Json) -> HandlerOutcome,
    notify: (string, Context, Json) -> Option<GoError>,
    initialize: (Context, Json) -> Result<Option<InitializeResult>, GoError>,
    shutdown: Context -> Option<GoError>,
    encode: InitializeResult -> Result<Json, string>)

  // ---------------------------------------------------------------------------------------------
  // Capability merge
  // ---------------------------------------------------------------------------------------------

  /** One field of the merge: an explicit value wins, a nil takes the detected one. */
  function Fill<T>(explicit: Option<T>, detected: Option<T>): Option<T>
  {
    if explicit.Some? then explicit else detected
  }

  /**
   * `mergeCapabilities` as a value: every listed field of `dst` that is nil is taken from `src`;
   * `executeCommandProvider` and `experimental` are not on the list.
   */
  function Merged(dst: ServerCapabilities, src: ServerCapabilities): ServerCapabilities
  {
    dst.(
      textDocumentSync := Fill(dst.textDocumentSync, src.textDocumentSync),
      completionProvider := Fill(dst.completionProvider, src.completionProvider),
      hoverProvider := Fill(dst.hoverProvider, src.hoverProvider),
      signatureHelpProvider := Fill(dst.signatureHelpProvider, src.signatureHelpProvider),
      declarationProvider := Fill(dst.declarationProvider, src.declarationProvider),
      definitionProvider := Fill(dst.definitionProvider, src.definitionProvider),
      typeDefinitionProvider := Fill(dst.typeDefinitionProvider, src.typeDefinitionProvider),
      implementationProvider := Fill(dst.implementationProvider, src.implementationProvider),
      referencesProvider := Fill(dst.referencesProvider, src.referencesProvider),
      documentHighlightProvider := Fill(dst.documentHighlightProvider, src.documentHighlightProvider),
      documentSymbolProvider := Fill(dst.documentSymbolProvider, src.documentSymbolProvider),
      codeActionProvider := Fill(dst.codeActionProvider, src.codeActionProvider),
      codeLensProvider := Fill(dst.codeLensProvider, src.codeLensProvider),
      documentLinkProvider := Fill(dst.documentLinkProvider, src.documentLinkProvider),
      colorProvider := Fill(dst.colorProvider, src.colorProvider),
      documentFormattingProvider := Fill(dst.documentFormattingProvider, src.documentFormattingProvider),
      documentRangeFormattingProvider := Fill(dst.documentRangeFormattingProvider, src.documentRangeFormattingProvider),
      documentOnTypeFormattingProvider := Fill(dst.documentOnTypeFormattingProvider, src.documentOnTypeFormattingProvider),
      renameProvider := Fill(dst.renameProvider, src.renameProvider),
      foldingRangeProvider := Fill(dst.foldingRangeProvider, src.foldingRangeProvider),
      selectionRangeProvider := Fill(dst.selectionRangeProvider, src.selectionRangeProvider),
      linkedEditingRangeProvider := Fill(dst.linkedEditingRangeProvider, src.linkedEditingRangeProvider),
      callHierarchyProvider := Fill(dst.callHierarchyProvider, src.callHierarchyProvider),
      semanticTokensProvider := Fill(dst.semanticTokensProvider, src.semanticTokensProvider),
      monikerProvider := Fill(dst.monikerProvider, src.monikerProvider),
      typeHierarchyProvider := Fill(dst.typeHierarchyProvider, src.typeHierarchyProvider),
      inlayHintProvider := Fill(dst.inlayHintProvider, src.inlayHintProvider),
      inlineValueProvider := Fill(dst.inlineValueProvider, src.inlineValueProvider),
      diagnosticProvider := Fill(dst.diagnosticProvider, src.diagnosticProvider),
      workspaceSymbolProvider := Fill(dst.workspaceSymbolProvider, src.workspaceSymbolProvider),
      workspace := Fill(dst.workspace, src.workspace))
  }

  /** Every listed field that `b` sets has the same value in `a`. */
  predicate Keeps(a: ServerCapabilities, b: ServerCapabilities)
  {
    && (b.textDocumentSync.Some? ==> a.textDocumentSync == b.textDocumentSync)
    && (b.completionProvider.Some? ==> a.completionProvider == b.completionProvider)
    && (b.hoverProvider.Some? ==> a.hoverProvider == b.hoverProvider)
    && (b.signatureHelpProvider.Some? ==> a.signatureHelpProvider == b.signatureHelpProvider)
    && (b.declarationProvider.Some? ==> a.declarationProvider == b.declarationProvider)
    && (b.definitionProvider.Some? ==> a.definitionProvider == b.definitionProvider)
    && (b.typeDefinitionProvider.Some? ==> a.typeDefinitionProvider == b.typeDefinitionProvider)
    && (b.implementationProvider.Some? ==> a.implementationProvider == b.implementationProvider)
    && (b.referencesProvider.Some? ==> a.referencesProvider == b.referencesProvider)
    && (b.documentHighlightProvider.Some? ==> a.documentHighlightProvider == b.documentHighlightProvider)
    && (b.documentSymbolProvider.Some? ==> a.documentSymbolProvider == b.documentSymbolProvider)
    && (b.codeActionProvider.Some? ==> a.codeActionProvider == b.codeActionProvider)
    && (b.codeLensProvider.Some? ==> a.codeLensProvider == b.codeLensProvider)
    && (b.documentLinkProvider.Some? ==> a.documentLinkProvider == b.documentLinkProvider)
    && (b.colorProvider.Some? ==> a.colorProvider == b.colorProvider)
    && (b.documentFormattingProvider.Some? ==> a.documentFormattingProvider == b.documentFormattingProvider)
    && (b.documentRangeFormattingProvider.Some? ==> a.documentRangeFormattingProvider == b.documentRangeFormattingProvider)
    && (b.documentOnTypeFormattingProvider.Some? ==> a.documentOnTypeFormattingProvider == b.documentOnTypeFormattingProvider)
    && (b.renameProvider.Some? ==> a.renameProvider == b.renameProvider)
    && (b.foldingRangeProvider.Some? ==> a.foldingRangeProvider == b.foldingRangeProvider)
    && (b.selectionRangeProvider.Some? ==> a.selectionRangeProvider == b.selectionRangeProvider)
    && (b.linkedEditingRangeProvider.Some? ==> a.linkedEditingRangeProvider == b.linkedEditingRangeProvider)
    && (b.callHierarchyProvider.Some? ==> a.callHierarchyProvider == b.callHierarchyProvider)
    && (b.semanticTokensProvider.Some? ==> a.semanticTokensProvider == b.semanticTokensProvider)
    && (b.monikerProvider.Some? ==> a.monikerProvider == b.monikerProvider)
    && (b.typeHierarchyProvider.Some? ==> a.typeHierarchyProvider == b.typeHierarchyProvider)
    && (b.inlayHintProvider.Some? ==> a.inlayHintProvider == b.inlayHintProvider)
    && (b.inlineValueProvider.Some? ==> a.inlineValueProvider == b.inlineValueProvider)
    && (b.diagnosticProvider.Some? ==> a.diagnosticProvider == b.diagnosticProvider)
    && (b.workspaceSymbolProvider.Some? ==> a.workspaceSymbolProvider == b.workspaceSymbolProvider)
    && (b.workspace.Some? ==> a.workspace == b.workspace)
  }

  /** Every listed field that `dst` leaves nil has `src`'s value in `a`. */
  predicate FillsFrom(a: ServerCapabilities, dst: ServerCapabilities, src: ServerCapabilities)
  {
    && (dst.textDocumentSync.None? ==> a.textDocumentSync == src.textDocumentSync)
    && (dst.completionProvider.None? ==> a.completionProvider == src.completionProvider)
    && (dst.hoverProvider.None? ==> a.hoverProvider == src.hoverProvider)
    && (dst.signatureHelpProvider.None? ==> a.signatureHelpProvider == src.signatureHelpProvider)
    && (dst.declarationProvider.None? ==> a.declarationProvider == src.declarationProvider)
    && (dst.definitionProvider.None? ==> a.definitionProvider == src.definitionProvider)
    && (dst.typeDefinitionProvider.None? ==> a.typeDefinitionProvider == src.typeDefinitionProvider)
    && (dst.implementationProvider.None? ==> a.implementationProvider == src.implementationProvider)
    && (dst.referencesProvider.None? ==> a.referencesProvider == src.referencesProvider)
    && (dst.documentHighlightProvider.None? ==> a.documentHighlightProvider == src.documentHighlightProvider)
    && (dst.documentSymbolProvider.None? ==> a.documentSymbolProvider == src.documentSymbolProvider)
    && (dst.codeActionProvider.None? ==> a.codeActionProvider == src.codeActionProvider)
    && (dst.codeLensProvider.None? ==> a.codeLensProvider == src.codeLensProvider)
    && (dst.documentLinkProvider.None? ==> a.documentLinkProvider == src.documentLinkProvider)
    && (dst.colorProvider.None? ==> a.colorProvider == src.colorProvider)
    && (dst.documentFormattingProvider.None? ==> a.documentFormattingProvider == src.documentFormattingProvider)
    && (dst.documentRangeFormattingProvider.None? ==> a.documentRangeFormattingProvider == src.documentRangeFormattingProvider)
    && (dst.documentOnTypeFormattingProvider.None? ==> a.documentOnTypeFormattingProvider == src.documentOnTypeFormattingProvider)
    && (dst.renameProvider.None? ==> a.renameProvider == src.renameProvider)
    && (dst.foldingRangeProvider.None? ==> a.foldingRangeProvider == src.foldingRangeProvider)
    && (dst.selectionRangeProvider.None? ==> a.selectionRangeProvider == src.selectionRangeProvider)
    && (dst.linkedEditingRangeProvider.None? ==> a.linkedEditingRangeProvider == src.linkedEditingRangeProvider)
    && (dst.callHierarchyProvider.None? ==> a.callHierarchyProvider == src.callHierarchyProvider)
    && (dst.semanticTokensProvider.None? ==> a.semanticTokensProvider == src.semanticTokensProvider)
    && (dst.monikerProvider.None? ==> a.monikerProvider == src.monikerProvider)
    && (dst.typeHierarchyProvider.None? ==> a.typeHierarchyProvider == src.typeHierarchyProvider)
    && (dst.inlayHintProvider.None? ==> a.inlayHintProvider == src.inlayHintProvider)
    && (dst.inlineValueProvider.None? ==> a.inlineValueProvider == src.inlineValueProvider)
    && (dst.diagnosticProvider.None? ==> a.diagnosticProvider == src.diagnosticProvider)
    && (dst.workspaceSymbolProvider.None? ==> a.workspaceSymbolProvider == src.workspaceSymbolProvider)
    && (dst.workspace.None? ==> a.workspace == src.workspace)
  }

  /** The two fields the merge does not touch. */
  predicate OutsideUnchanged(a: ServerCapabilities, dst: ServerCapabilities)
  {
    a.executeCommandProvider == dst.executeCommandProvider && a.experimental == dst.experimental
  }

  /** Explicit values win, nils are filled, and the fields off the list stay as they were. */
  lemma MergeKeepsAndFills(dst: ServerCapabilities, src: ServerCapabilities)
    ensures Keeps(Merged(dst, src), dst)
    ensures FillsFrom(Merged(dst, src), dst, src)
    ensures OutsideUnchanged(Merged(dst, src), dst)
  {
  }

  /** The three properties pin the merge down: any record that has them is the merge. */
  lemma MergeCharacterised(dst: ServerCapabilities, src: ServerCapabilities, a: ServerCapabilities)
    requires Keeps(a, dst) && FillsFrom(a, dst, src) && OutsideUnchanged(a, dst)
    ensures a == Merged(dst, src)
  {
  }

  /** Merging the same detected capabilities twice changes nothing the first merge did not. */
  lemma MergeIdempotent(dst: ServerCapabilities, src: ServerCapabilities)
    ensures Merged(Merged(dst, src), src) == Merged(dst, src)
  {
  }

  /** Merging an empty record changes nothing; merging into one gives the detected fields. */
  lemma MergeWithNothing(caps: ServerCapabilities)
    ensures Merged(caps, NoCapabilities) == caps
    ensures Merged(NoCapabilities, caps) == caps.(executeCommandProvider := None, experimental := [])
  {
  }

  /**
   * `mergeCapabilities(&dst, &src)`: the listed fields of `dst` are filled in place, one after
   * the other, from `src` wherever `dst` has nil.
   */
  method MergeCapabilities(dst: ServerCapabilities, src: ServerCapabilities) returns (merged: ServerCapabilities)
    ensures merged == Merged(dst, src)
  {
    merged := dst;
    merged := merged.(textDocumentSync := Fill(merged.textDocumentSync, src.textDocumentSync));
    merged := merged.(completionProvider := Fill(merged.completionProvider, src.completionProvider));
    merged := merged.(hoverProvider := Fill(merged.hoverProvider, src.hoverProvider));
    merged := merged.(signatureHelpProvider := Fill(merged.signatureHelpProvider, src.signatureHelpProvider));
    merged := merged.(declarationProvider := Fill(merged.declarationProvider, src.declarationProvider));
    merged := merged.(definitionProvider := Fill(merged.definitionProvider, src.definitionProvider));
    merged := merged.(typeDefinitionProvider := Fill(merged.typeDefinitionProvider, src.typeDefinitionProvider));
    merged := merged.(implementationProvider := Fill(merged.implementationProvider, src.implementationProvider));
    merged := merged.(referencesProvider := Fill(merged.referencesProvider, src.referencesProvider));
    merged := merged.(documentHighlightProvider := Fill(merged.documentHighlightProvider, src.documentHighlightProvider));
    merged := merged.(documentSymbolProvider := Fill(merged.documentSymbolProvider, src.documentSymbolProvider));
    merged := merged.(codeActionProvider := Fill(merged.codeActionProvider, src.codeActionProvider));
    merged := merged.(codeLensProvider := Fill(merged.codeLensProvider, src.codeLensProvider));
    merged := merged.(documentLinkProvider := Fill(merged.documentLinkProvider, src.documentLinkProvider));
    merged := merged.(colorProvider := Fill(merged.colorProvider, src.colorProvider));
    merged := merged.(documentFormattingProvider := Fill(merged.documentFormattingProvider, src.documentFormattingProvider));
    merged := merged.(documentRangeFormattingProvider := Fill(merged.documentRangeFormattingProvider, src.documentRangeFormattingProvider));
    merged := merged.(documentOnTypeFormattingProvider := Fill(merged.documentOnTypeFormattingProvider, src.documentOnTypeFormattingProvider));
    merged := merged.(renameProvider := Fill(merged.renameProvider, src.renameProvider));
    merged := merged.(foldingRangeProvider := Fill(merged.foldingRangeProvider, src.foldingRangeProvider));
    merged := merged.(selectionRangeProvider := Fill(merged.selectionRangeProvider, src.selectionRangeProvider));
    merged := merged.(linkedEditingRangeProvider := Fill(merged.linkedEditingRangeProvider, src.linkedEditingRangeProvider));
    merged := merged.(callHierarchyProvider := Fill(merged.callHierarchyProvider, src.callHierarchyProvider));
    merged := merged.(semanticTokensProvider := Fill(merged.semanticTokensProvider, src.semanticTokensProvider));
    merged := merged.(monikerProvider := Fill(merged.monikerProvider, src.monikerProvider));
    merged := merged.(typeHierarchyProvider := Fill(merged.typeHierarchyProvider, src.typeHierarchyProvider));
    merged := merged.(inlayHintProvider := Fill(merged.inlayHintProvider, src.inlayHintProvider));
    merged := merged.(inlineValueProvider := Fill(merged.inlineValueProvider, src.inlineValueProvider));
    merged := merged.(diagnosticProvider := Fill(merged.diagnosticProvider, src.diagnosticProvider));
    merged := merged.(workspaceSymbolProvider := Fill(merged.workspaceSymbolProvider, src.workspaceSymbolProvider));
    merged := merged.(workspace := Fill(merged.workspace, src.workspace));
  }

  // ---------------------------------------------------------------------------------------------
  // Registration
  // ---------------------------------------------------------------------------------------------

  /** How the server answers a registered method: one of its own two, or a handler function. */
  datatype Route = InitializeRoute | ShutdownRoute | HandlerRoute(handler: MethodHandler)

  /**
   * `typedHandler` and the `handleX` wrappers of `registerIf`: decode the params, answer
   * -32602 with the decoder's text when that fails, and call the typed method otherwise.
   */
  function TypedHandler(lsp: LanguageServer, name: string): MethodHandler
  {
    (ctx: Context, params: Json) =>
      match lsp.decode(name, params)
      case Some(e) => Failed(RpcError(NewError(InvalidParams, e)))
      case None => lsp.call(name, ctx, params)
  }

  /** `notifHandler`: decode the params and return the decoder's own error when that fails. */
  function NotifHandler(lsp: LanguageServer, name: string): NotificationHandler
  {
    (ctx: Context, params: Json) =>
      match lsp.decode(name, params)
      case Some(e) => Some(OtherError(e))
      case None => lsp.notify(name, ctx, params)
  }

  /** A params decode failure is answered -32602 with the decoder's text. */
  lemma TypedHandlerDecodeFailure(lsp: LanguageServer, name: string, id: Id, ctx: Context, params: Json)
    requires lsp.decode(name, params).Some?
    ensures Respond(id, TypedHandler(lsp, name)(ctx, params)).error
      == Some(ResponseError(InvalidParams, lsp.decode(name, params).value, None))
    ensures NotifHandler(lsp, name)(ctx, params) == Some(OtherError(lsp.decode(name, params).value))
  {
    var e := lsp.decode(name, params).value;
    assert TypedHandler(lsp, name)(ctx, params) == Failed(RpcError(NewError(InvalidParams, e)));
  }

  /** With decodable params both wrappers are the typed method itself. */
  lemma TypedHandlerDecoded(lsp: LanguageServer, name: string, ctx: Context, params: Json)
    requires lsp.decode(name, params).None?
    ensures TypedHandler(lsp, name)(ctx, params) == lsp.call(name, ctx, params)
    ensures NotifHandler(lsp, name)(ctx, params) == lsp.notify(name, ctx, params)
  {
  }

  /** The route `registerIf` installs for a method name. */
  function MethodRoute(lsp: LanguageServer): string -> Route
  {
    name => HandlerRoute(TypedHandler(lsp, name))
  }

  /** The handler `notifHandler` installs for a notification name. */
  function NotifRoute(lsp: LanguageServer): string -> NotificationHandler
  {
    name => NotifHandler(lsp, name)
  }

  /**
   * `registerMethods` after `initialize` and `shutdown`, in source order: method name and the
   * interface it needs. The table is kept in groups of eight so that facts about its names stay
   * cheap to check.
   */
  const MethodTable: seq<(string, HandlerIface)> :=
    MethodGroup1 + MethodGroup2 + MethodGroup3 + MethodGroup4 + MethodGroup5 + MethodGroup6

  const MethodGroup1: seq<(string, HandlerIface)> := [
    ("textDocument/completion", CompletionHandler),
    ("completionItem/resolve", CompletionResolveHandler),
    ("textDocument/hover", HoverHandler),
    ("textDocument/signatureHelp", SignatureHelpHandler),
    ("textDocument/declaration", DeclarationHandler),
    ("textDocument/definition", DefinitionHandler),
    ("textDocument/typeDefinition", TypeDefinitionHandler),
    ("textDocument/implementation", ImplementationHandler)]

  const MethodGroup2: seq<(string, HandlerIface)> := [
    ("textDocument/references", ReferencesHandler),
    ("textDocument/documentHighlight", DocumentHighlightHandler),
    ("textDocument/documentSymbol", DocumentSymbolHandler),
    ("textDocument/codeAction", CodeActionHandler),
    ("codeAction/resolve", CodeActionResolveHandler),
    ("textDocument/codeLens", CodeLensHandler),
    ("codeLens/resolve", CodeLensResolveHandler),
    ("textDocument/documentLink", DocumentLinkHandler)]

  const MethodGroup3: seq<(string, HandlerIface)> := [
    ("documentLink/resolve", DocumentLinkResolveHandler),
    ("textDocument/documentColor", DocumentColorHandler),
    ("textDocument/colorPresentation", ColorPresentationHandler),
    ("textDocument/formatting", DocumentFormattingHandler),
    ("textDocument/rangeFormatting", DocumentRangeFormattingHandler),
    ("textDocument/onTypeFormatting", DocumentOnTypeFormattingHandler),
    ("textDocument/rename", RenameHandler),
    ("textDocument/prepareRename", PrepareRenameHandler)]

  const MethodGroup4: seq<(string, HandlerIface)> := [
    ("textDocument/foldingRange", FoldingRangeHandler),
    ("textDocument/selectionRange", SelectionRangeHandler),
    ("textDocument/linkedEditingRange", LinkedEditingRangeHandler),
    ("textDocument/moniker", MonikerHandler),
    ("textDocument/willSaveWaitUntil", TextDocumentWillSaveWaitUntilHandler),
    ("workspace/symbol", WorkspaceSymbolHandler),
    ("workspace/executeCommand", ExecuteCommandHandler),
    ("workspace/willCreateFiles", WillCreateFilesHandler)]

  const MethodGroup5: seq<(string, HandlerIface)> := [
    ("workspace/willRenameFiles", WillRenameFilesHandler),
    ("workspace/willDeleteFiles", WillDeleteFilesHandler),
    ("textDocument/prepareCallHierarchy", CallHierarchyHandler),
    ("callHierarchy/incomingCalls", CallHierarchyHandler),
    ("callHierarchy/outgoingCalls", CallHierarchyHandler),
    ("textDocument/prepareTypeHierarchy", TypeHierarchyHandler),
    ("typeHierarchy/supertypes", TypeHierarchyHandler),
    ("typeHierarchy/subtypes", TypeHierarchyHandler)]

  const MethodGroup6: seq<(string, HandlerIface)> := [
    ("textDocument/inlayHint", InlayHintHandler),
    ("inlayHint/resolve", InlayHintResolveHandler),
    ("textDocument/inlineValue", InlineValueHandler),
    ("textDocument/diagnostic", DocumentDiagnosticHandler),
    ("workspace/diagnostic", WorkspaceDiagnosticHandler),
    ("textDocument/semanticTokens/full", SemanticTokensFullHandler),
    ("textDocument/semanticTokens/full/delta", SemanticTokensDeltaHandler),
    ("textDocument/semanticTokens/range", SemanticTokensRangeHandler)]

  /** `registerNotifications` after `initialized` and `exit`, in source order. */
  const NotificationTable: seq<(string, HandlerIface)> := [
    ("textDocument/didOpen", TextDocumentSyncHandler),
    ("textDocument/didChange", TextDocumentSyncHandler),
    ("textDocument/didClose", TextDocumentSyncHandler),
    ("textDocument/didSave", TextDocumentSaveHandler),
    ("textDocument/willSave", TextDocumentWillSaveHandler),
    ("workspace/didChangeWorkspaceFolders", WorkspaceFoldersHandler),
    ("workspace/didChangeConfiguration", DidChangeConfigurationHandler),
    ("workspace/didChangeWatchedFiles", DidChangeWatchedFilesHandler),
    ("$/setTrace", SetTraceHandler)]

  /** The entries with the server's own handlers, registered before the table. */
  const LifecycleMethods: map<string, Route> := map["initialize" := InitializeRoute, "shutdown" := ShutdownRoute]

  function LifecycleNotifications(): map<string, NotificationHandler>
  {
    map["initialized" := (ctx: Context, params: Json) => None,
        "exit" := (ctx: Context, params: Json) => Some(OtherError("exit"))]
  }

  /** `registerIf` for one table entry: register `make(name)` only when the interface is implemented. */
  function RegisterIf<H>(m: map<string, H>, impl: set<HandlerIface>, entry: (string, HandlerIface), make: string -> H): (r: map<string, H>)
    ensures entry.1 in impl ==> r == m[entry.0 := make(entry.0)]
    ensures entry.1 !in impl ==> r == m
  {
    if entry.1 in impl then m[entry.0 := make(entry.0)] else m
  }

  /** The table registered entry after entry. */
  function RegisterAll<H>(m: map<string, H>, impl: set<HandlerIface>, table: seq<(string, HandlerIface)>, make: string -> H): map<string, H>
    decreases |table|
  {
    if table == [] then m
    else RegisterIf(RegisterAll(m, impl, table[..|table| - 1], make), impl, table[|table| - 1], make)
  }

  /** Some entry of the table names `name` with an interface the handler implements. */
  predicate Listed(impl: set<HandlerIface>, table: seq<(string, HandlerIface)>, name: string)
  {
    exists k :: 0 <= k < |table| && table[k].0 == name && table[k].1 in impl
  }

  /**
   * After the table, a name is registered exactly when it was before or an implemented entry
   * lists it; a listed name gets `make(name)`, any other keeps its earlier handler.
   */
  lemma {:induction false} RegisterAllLookup<H>(m: map<string, H>, impl: set<HandlerIface>, table: seq<(string, HandlerIface)>, make: string -> H, name: string)
    ensures name in RegisterAll(m, impl, table, make) <==> name in m || Listed(impl, table, name)
    ensures Listed(impl, table, name) ==> RegisterAll(m, impl, table, make)[name] == make(name)
    ensures !Listed(impl, table, name) && name in m ==> RegisterAll(m, impl, table, make)[name] == m[name]
    decreases |table|
  {
    if table != [] {
      var front := table[..|table| - 1];
      RegisterAllLookup(m, impl, front, make, name);
      assert Listed(impl, table, name) <==> Listed(impl, front, name) || (table[|table| - 1].0 == name && table[|table| - 1].1 in impl) by {
        if Listed(impl, table, name) {
          var k :| 0 <= k < |table| && table[k].0 == name && table[k].1 in impl;
          if k < |table| - 1 { assert front[k] == table[k]; }
        }
        if Listed(impl, front, name) {
          var k :| 0 <= k < |front| && front[k].0 == name && front[k].1 in impl;
          assert table[k] == front[k];
        }
      }
    }
  }

  /** The methods `registerMethods` installs for a handler. */
  function BuiltinMethods(lsp: LanguageServer): map<string, Route>
  {
    RegisterAll(LifecycleMethods, lsp.implements, MethodTable, MethodRoute(lsp))
  }

  /** The notifications `registerNotifications` installs for a handler. */
  function BuiltinNotifications(lsp: LanguageServer): map<string, NotificationHandler>
  {
    RegisterAll(LifecycleNotifications(), lsp.implements, NotificationTable, NotifRoute(lsp))
  }

  /** No entry of `t` has a lifecycle method name. */
  predicate NoLifecycleMethod(t: seq<(string, HandlerIface)>)
  {
    forall k | 0 <= k < |t| :: t[k].0 != "initialize" && t[k].0 != "shutdown"
  }

  lemma Group1Names() ensures NoLifecycleMethod(MethodGroup1) {}
  lemma Group2Names() ensures NoLifecycleMethod(MethodGroup2) {}
  lemma Group3Names() ensures NoLifecycleMethod(MethodGroup3) {}
  lemma Group4Names() ensures NoLifecycleMethod(MethodGroup4) {}
  lemma Group5Names() ensures NoLifecycleMethod(MethodGroup5) {}
  lemma Group6Names() ensures NoLifecycleMethod(MethodGroup6) {}

  /** No table entry has a lifecycle name. */
  lemma TableNamesAreNotLifecycle()
    ensures NoLifecycleMethod(MethodTable)
    ensures forall k | 0 <= k < |NotificationTable| :: NotificationTable[k].0 != "initialized" && NotificationTable[k].0 != "exit"
  {
    Group1Names(); Group2Names(); Group3Names(); Group4Names(); Group5Names(); Group6Names();
    forall k | 0 <= k < |MethodTable| ensures MethodTable[k].0 != "initialize" && MethodTable[k].0 != "shutdown" {
      if k < 8 { assert MethodTable[k] == MethodGroup1[k]; }
      else if k < 16 { assert MethodTable[k] == MethodGroup2[k - 8]; }
      else if k < 24 { assert MethodTable[k] == MethodGroup3[k - 16]; }
      else if k < 32 { assert MethodTable[k] == MethodGroup4[k - 24]; }
      else if k < 40 { assert MethodTable[k] == MethodGroup5[k - 32]; }
      else { assert MethodTable[k] == MethodGroup6[k - 40]; }
    }
  }

  /** `initialize` and `shutdown` are registered whatever the handler implements. */
  lemma LifecycleAlwaysRegistered(lsp: LanguageServer)
    ensures "initialize" in BuiltinMethods(lsp) && BuiltinMethods(lsp)["initialize"] == InitializeRoute
    ensures "shutdown" in BuiltinMethods(lsp) && BuiltinMethods(lsp)["shutdown"] == ShutdownRoute
    ensures "initialized" in BuiltinNotifications(lsp) && "exit" in BuiltinNotifications(lsp)
  {
    var impl := lsp.implements;
    TableNamesAreNotLifecycle();
    forall name | name == "initialize" || name == "shutdown" ensures !Listed(impl, MethodTable, name) {
      assert forall k | 0 <= k < |MethodTable| :: MethodTable[k].0 != name;
    }
    forall name | name == "initialized" || name == "exit" ensures !Listed(impl, NotificationTable, name) {
      assert forall k | 0 <= k < |NotificationTable| :: NotificationTable[k].0 != name;
    }
    RegisterAllLookup(LifecycleMethods, impl, MethodTable, MethodRoute(lsp), "initialize");
    RegisterAllLookup(LifecycleMethods, impl, MethodTable, MethodRoute(lsp), "shutdown");
    RegisterAllLookup(LifecycleNotifications(), impl, NotificationTable, NotifRoute(lsp), "initialized");
    RegisterAllLookup(LifecycleNotifications(), impl, NotificationTable, NotifRoute(lsp), "exit");
  }

  /**
   * `registerIf`: an entry whose interface the handler implements is registered with the typed
   * handler; a name no implemented entry lists is not registered at all.
   */
  lemma RegisteredIffImplemented(lsp: LanguageServer, name: string)
    requires name != "initialize" && name != "shutdown"
    ensures name in BuiltinMethods(lsp) <==> Listed(lsp.implements, MethodTable, name)
    ensures name in BuiltinMethods(lsp) ==> BuiltinMethods(lsp)[name] == HandlerRoute(TypedHandler(lsp, name))
  {
    RegisterAllLookup(LifecycleMethods, lsp.implements, MethodTable, MethodRoute(lsp), name);
  }

  /** The same for notifications, apart from `initialized` and `exit`. */
  lemma NotificationRegisteredIffImplemented(lsp: LanguageServer, name: string)
    requires name != "initialized" && name != "exit"
    ensures name in BuiltinNotifications(lsp) <==> Listed(lsp.implements, NotificationTable, name)
    ensures name in BuiltinNotifications(lsp) ==> BuiltinNotifications(lsp)[name] == NotifHandler(lsp, name)
  {
    RegisterAllLookup(LifecycleNotifications(), lsp.implements, NotificationTable, NotifRoute(lsp), name);
  }

  /** An implemented table entry is served under its name. */
  lemma EntryServed(lsp: LanguageServer, entry: (string, HandlerIface))
    requires entry in MethodTable && entry.1 in lsp.implements
    ensures entry.0 in BuiltinMethods(lsp)
  {
    var k :| 0 <= k < |MethodTable| && MethodTable[k] == entry;
    RegisterAllLookup(LifecycleMethods, lsp.implements, MethodTable, MethodRoute(lsp), entry.0);
  }

  /**
   * Served but never advertised: the semantic-token, on-type-formatting and execute-command
   * methods are registered for their handlers while `buildCapabilities` leaves the capability nil.
   */
  lemma ServedButNotAdvertised(lsp: LanguageServer)
    ensures SemanticTokensFullHandler in lsp.implements ==>
      "textDocument/semanticTokens/full" in BuiltinMethods(lsp) && BuildCapabilities(lsp.implements).semanticTokensProvider.None?
    ensures DocumentOnTypeFormattingHandler in lsp.implements ==>
      "textDocument/onTypeFormatting" in BuiltinMethods(lsp) && BuildCapabilities(lsp.implements).documentOnTypeFormattingProvider.None?
    ensures ExecuteCommandHandler in lsp.implements ==>
      "workspace/executeCommand" in BuiltinMethods(lsp) && BuildCapabilities(lsp.implements).executeCommandProvider.None?
  {
    var impl := lsp.implements;
    if SemanticTokensFullHandler in impl { EntryServed(lsp, ("textDocument/semanticTokens/full", SemanticTokensFullHandler)); }
    if DocumentOnTypeFormattingHandler in impl { EntryServed(lsp, ("textDocument/onTypeFormatting", DocumentOnTypeFormattingHandler)); }
    if ExecuteCommandHandler in impl { EntryServed(lsp, ("workspace/executeCommand", ExecuteCommandHandler)); }
  }

  /** What `buildCapabilities` advertises for a provider, the server serves. */
  lemma AdvertisedIsServed(lsp: LanguageServer)
    ensures BuildCapabilities(lsp.implements).hoverProvider.Some? ==> "textDocument/hover" in BuiltinMethods(lsp)
    ensures BuildCapabilities(lsp.implements).completionProvider.Some? ==> "textDocument/completion" in BuiltinMethods(lsp)
    ensures BuildCapabilities(lsp.implements).definitionProvider.Some? ==> "textDocument/definition" in BuiltinMethods(lsp)
    ensures BuildCapabilities(lsp.implements).renameProvider.Some? ==> "textDocument/rename" in BuiltinMethods(lsp)
    ensures BuildCapabilities(lsp.implements).diagnosticProvider.Some? ==> "textDocument/diagnostic" in BuiltinMethods(lsp)
  {
    var impl := lsp.implements;
    if HoverHandler in impl { EntryServed(lsp, ("textDocument/hover", HoverHandler)); }
    if CompletionHandler in impl { EntryServed(lsp, ("textDocument/completion", CompletionHandler)); }
    if DefinitionHandler in impl { EntryServed(lsp, ("textDocument/definition", DefinitionHandler)); }
    if RenameHandler in impl { EntryServed(lsp, ("textDocument/rename", RenameHandler)); }
    if DocumentDiagnosticHandler in impl { EntryServed(lsp, ("textDocument/diagnostic", DocumentDiagnosticHandler)); }
  }

  /** The custom entries as routes. */
  function CustomRoutes(custom: map<string, MethodHandler>): (r: map<string, Route>)
    ensures r.Keys == custom.Keys
    ensures forall name | name in custom :: r[name] == HandlerRoute(custom[name])
  {
    map name | name in custom :: HandlerRoute(custom[name])
  }

  /** Part way through the registration loop: the names in `done` are written, the rest as in `base`. */
  ghost predicate OverlaidSoFar<V>(table: map<string, V>, base: map<string, V>, extra: map<string, V>, done: set<string>)
  {
    && done <= extra.Keys
    && (forall n :: n in table <==> n in base || n in done)
    && (forall n | n in done :: table[n] == extra[n])
    && (forall n | n in base && n !in done :: table[n] == base[n])
  }

  lemma OverlayStep<V>(table: map<string, V>, base: map<string, V>, extra: map<string, V>, done: set<string>, name: string)
    requires OverlaidSoFar(table, base, extra, done) && name in extra
    ensures OverlaidSoFar(table[name := extra[name]], base, extra, done + {name})
  {
  }

  lemma OverlayDone<V>(table: map<string, V>, base: map<string, V>, extra: map<string, V>)
    requires OverlaidSoFar(table, base, extra, extra.Keys)
    ensures table == base + extra
  {
    assert table.Keys == (base + extra).Keys;
  }

  /**
   * The registration loop: each entry of `extra` is written into the table in turn, replacing
   * an entry of the same name.
   */
  method Overlay<V>(base: map<string, V>, extra: map<string, V>) returns (table: map<string, V>)
    ensures table == base + extra
  {
    table := base;
    var todo := extra.Keys;
    ghost var done: set<string> := {};
    while todo != {}
      invariant todo !! done && todo + done == extra.Keys
      invariant OverlaidSoFar(table, base, extra, done)
      decreases |todo|
    {
      var name :| name in todo;
      OverlayStep(table, base, extra, done, name);
      table := table[name := extra[name]];
      todo := todo - {name};
      done := done + {name};
    }
    OverlayDone(table, base, extra);
  }

  // ---------------------------------------------------------------------------------------------
  // Lifecycle
  // ---------------------------------------------------------------------------------------------

  /**
   * How `handleInitialize` ends: with the merged result, with an error, or in a panic when
   * `Initialize` returns a nil result and no error, since the merge dereferences the result.
   */
  datatype Handshake = Initialized(result: InitializeResult) | Refused(error: GoError) | NilResultPanic

  /**
   * What `handleInitialize` does: -32602 when the params do not decode, the handler's own error
   * when `Initialize` fails, a panic when it returns `(nil, nil)`, and otherwise its result with
   * the detected capabilities merged in.
   */
  function InitializeOutcome(lsp: LanguageServer, ctx: Context, params: Json): (r: Handshake)
    ensures lsp.decode("initialize", params).Some? ==>
      r.Refused? && r.error.RpcError? && r.error.err.code == InvalidParams
      && r.error.err.message == lsp.decode("initialize", params).value
    ensures lsp.decode("initialize", params).None? && lsp.initialize(ctx, params).Failure? ==>
      r == Refused(lsp.initialize(ctx, params).error)
    ensures r.NilResultPanic? <==> lsp.decode("initialize", params).None? && lsp.initialize(ctx, params) == Success(None)
    ensures r.Initialized? <==>
      lsp.decode("initialize", params).None? && lsp.initialize(ctx, params).Success? && lsp.initialize(ctx, params).value.Some?
    ensures r.Initialized? ==> var given := lsp.initialize(ctx, params).value.value;
      && Keeps(r.result.capabilities, given.capabilities)
      && FillsFrom(r.result.capabilities, given.capabilities, BuildCapabilities(lsp.implements))
      && OutsideUnchanged(r.result.capabilities, given.capabilities)
      && r.result.serverInfo == given.serverInfo
  {
    match lsp.decode("initialize", params)
    case Some(e) => Refused(RpcError(NewError(InvalidParams, e)))
    case None =>
      match lsp.initialize(ctx, params)
      case Failure(e) => Refused(e)
      case Success(None) => NilResultPanic
      case Success(Some(result)) =>
        MergeKeepsAndFills(result.capabilities, BuildCapabilities(lsp.implements));
        Initialized(result.(capabilities := Merged(result.capabilities, BuildCapabilities(lsp.implements))))
  }

  /**
   * The handshake: a handler implementing `HoverHandler` whose `Initialize` leaves the hover
   * capability nil gets it filled in as true, while its server info is passed on unchanged.
   */
  lemma HandshakeFillsHover(lsp: LanguageServer, ctx: Context, params: Json)
    requires lsp.decode("initialize", params).None? && lsp.initialize(ctx, params).Success?
    requires lsp.initialize(ctx, params).value.Some? && HoverHandler in lsp.implements
    requires lsp.initialize(ctx, params).value.value.capabilities.hoverProvider.None?
    ensures InitializeOutcome(lsp, ctx, params).Initialized?
    ensures InitializeOutcome(lsp, ctx, params).result.capabilities.hoverProvider == Some(true)
    ensures InitializeOutcome(lsp, ctx, params).result.serverInfo == lsp.initialize(ctx, params).value.value.serverInfo
  {
    assert BuildCapabilities(lsp.implements).hoverProvider == Some(true);
  }

  /**
   * The handshake as the `(any, error)` pair the dispatcher turns into a response; a panic
   * returns nothing.
   */
  function InitializeAnswer(lsp: LanguageServer, r: Handshake): (o: Option<HandlerOutcome>)
    ensures o.None? <==> r.NilResultPanic?
    ensures r.Refused? ==> o == Some(Failed(r.error))
    ensures r.Initialized? ==> o == Some(Ok(Some(Value(lsp.encode(r.result)))))
  {
    match r
    case Refused(e) => Some(Failed(e))
    case Initialized(v) => Some(Ok(Some(Value(lsp.encode(v)))))
    case NilResultPanic => None
  }

  /** `handleShutdown` answers nil and the handler's error, if any. */
  function ShutdownAnswer(err: Option<GoError>): (o: HandlerOutcome)
    ensures err.None? ==> o == Ok(None)
    ensures err.Some? ==> o == Failed(err.value)
  {
    match err
    case None => Ok(None)
    case Some(e) => Failed(e)
  }

  /** A response to a shutdown that succeeded has neither a result nor an error. */
  lemma ShutdownResponseIsEmpty(id: Id)
    ensures Respond(id, ShutdownAnswer(None)).result == []
    ensures Respond(id, ShutdownAnswer(None)).error.None?
  {
    RespondMembers(id, ShutdownAnswer(None));
  }

  /**
   * A server: the user's handler, the lifecycle flags, the custom entries given before `Run`
   * and the method and notification tables `Run` registers.
   */
  class Server {
    const handler: LanguageServer
    var initialized: bool
    var shutdown: bool
    var customMethods: map<string, MethodHandler>
    var customNotifs: map<string, NotificationHandler>
    var methods: map<string, Route>
    var notifications: map<string, NotificationHandler>

    /** `NewServer`: no custom entries and nothing registered. */
    constructor (handler: LanguageServer)
      ensures this.handler == handler && !initialized && !shutdown
      ensures customMethods == map[] && customNotifs == map[]
      ensures methods == map[] && notifications == map[]
    {
      this.handler := handler;
      initialized := false;
      shutdown := false;
      customMethods := map[];
      customNotifs := map[];
      methods := map[];
      notifications := map[];
    }

    /** Everything but the custom entries is as it was. */
    twostate predicate TablesAndFlagsUnchanged()
      reads this
    {
      && initialized == old(initialized) && shutdown == old(shutdown)
      && methods == old(methods) && notifications == old(notifications)
    }

    /** `HandleMethod`: the last handler given for a name wins. */
    method HandleMethod(name: string, h: MethodHandler)
      modifies this
      ensures customMethods == old(customMethods)[name := h]
      ensures customNotifs == old(customNotifs) && TablesAndFlagsUnchanged()
    {
      customMethods := customMethods[name := h];
    }

    /** `HandleNotification`: the last handler given for a name wins. */
    method HandleNotification(name: string, h: NotificationHandler)
      modifies this
      ensures customNotifs == old(customNotifs)[name := h]
      ensures customMethods == old(customMethods) && TablesAndFlagsUnchanged()
    {
      customNotifs := customNotifs[name := h];
    }

    /** `registerMethods`: the lifecycle methods, then the table entry by entry. */
    method RegisterMethods()
      modifies this
      ensures methods == BuiltinMethods(handler)
      ensures notifications == old(notifications) && customMethods == old(customMethods) && customNotifs == old(customNotifs)
      ensures initialized == old(initialized) && shutdown == old(shutdown)
    {
      methods := LifecycleMethods;
      for i := 0 to |MethodTable|
        invariant methods == RegisterAll(LifecycleMethods, handler.implements, MethodTable[..i], MethodRoute(handler))
        invariant notifications == old(notifications) && customMethods == old(customMethods) && customNotifs == old(customNotifs)
        invariant initialized == old(initialized) && shutdown == old(shutdown)
      {
        assert MethodTable[..i + 1][..i] == MethodTable[..i];
        var (name, iface) := MethodTable[i];
        if iface in handler.implements {
          methods := methods[name := HandlerRoute(TypedHandler(handler, name))];
        }
      }
      assert MethodTable[..|MethodTable|] == MethodTable;
    }

    /** `registerNotifications`: `initialized` and `exit`, then the table entry by entry. */
    method RegisterNotifications()
      modifies this
      ensures notifications == BuiltinNotifications(handler)
      ensures methods == old(methods) && customMethods == old(customMethods) && customNotifs == old(customNotifs)
      ensures initialized == old(initialized) && shutdown == old(shutdown)
    {
      notifications := LifecycleNotifications();
      for i := 0 to |NotificationTable|
        invariant notifications == RegisterAll(LifecycleNotifications(), handler.implements, NotificationTable[..i], NotifRoute(handler))
        invariant methods == old(methods) && customMethods == old(customMethods) && customNotifs == old(customNotifs)
        invariant initialized == old(initialized) && shutdown == old(shutdown)
      {
        assert NotificationTable[..i + 1][..i] == NotificationTable[..i];
        var (name, iface) := NotificationTable[i];
        if iface in handler.implements {
          notifications := notifications[name := NotifHandler(handler, name)];
        }
      }
      assert NotificationTable[..|NotificationTable|] == NotificationTable;
    }

    /**
     * The registration part of `Run`: the built-in methods and notifications, then every custom
     * entry, so that a custom entry replaces a built-in of the same name. Go visits the custom
     * maps in an unspecified order; the keys are distinct, so the order does not matter.
     */
    method Register()
      modifies this
      ensures methods == BuiltinMethods(handler) + CustomRoutes(customMethods)
      ensures notifications == BuiltinNotifications(handler) + customNotifs
      ensures customMethods == old(customMethods) && customNotifs == old(customNotifs)
      ensures initialized == old(initialized) && shutdown == old(shutdown)
    {
      RegisterMethods();
      RegisterNotifications();
      RegisterCustomMethods();
      RegisterCustomNotifications();
    }

    /** The loop over `customMethods`: each custom handler replaces whatever had its name. */
    method RegisterCustomMethods()
      modifies this
      ensures methods == old(methods) + CustomRoutes(customMethods)
      ensures notifications == old(notifications) && customMethods == old(customMethods) && customNotifs == old(customNotifs)
      ensures initialized == old(initialized) && shutdown == old(shutdown)
    {
      methods := Overlay(methods, CustomRoutes(customMethods));
    }

    /** The loop over `customNotifs`: each custom handler replaces whatever had its name. */
    method RegisterCustomNotifications()
      modifies this
      ensures notifications == old(notifications) + customNotifs
      ensures methods == old(methods) && customMethods == old(customMethods) && customNotifs == old(customNotifs)
      ensures initialized == old(initialized) && shutdown == old(shutdown)
    {
      notifications := Overlay(notifications, customNotifs);
    }

    /** `handleInitialize`: only a successful initialize sets the flag. */
    method HandleInitialize(ctx: Context, params: Json) returns (r: Handshake)
      modifies this
      ensures r == InitializeOutcome(handler, ctx, params)
      ensures initialized == (old(initialized) || r.Initialized?)
      ensures shutdown == old(shutdown) && methods == old(methods) && notifications == old(notifications)
      ensures customMethods == old(customMethods) && customNotifs == old(customNotifs)
    {
      var decodeError := handler.decode("initialize", params);
      if decodeError.Some? {
        return Refused(RpcError(NewError(InvalidParams, decodeError.value)));
      }
      var result := handler.initialize(ctx, params);
      if result.Failure? {
        return Refused(result.error);
      }
      if result.value.None? {
        return NilResultPanic;
      }
      var autoCaps := BuildCapabilities(handler.implements);
      var merged := MergeCapabilities(result.value.value.capabilities, autoCaps);
      initialized := true;
      r := Initialized(result.value.value.(capabilities := merged));
    }

    /** `handleShutdown`: the flag is set whether or not the handler's `Shutdown` fails. */
    method HandleShutdown(ctx: Context) returns (err: Option<GoError>)
      modifies this
      ensures err == handler.shutdown(ctx) && shutdown
      ensures initialized == old(initialized) && methods == old(methods) && notifications == old(notifications)
      ensures customMethods == old(customMethods) && customNotifs == old(customNotifs)
    {
      err := handler.shutdown(ctx);
      shutdown := true;
    }

    /**
     * The dispatcher's `HandleRequest` over the server's table: an unknown method is answered
     * "method not found", a lifecycle method by the server, any other by its handler. `None` is
     * the panic of an `initialize` whose handler returned a nil result: no answer is written.
     */
    method HandleRequest(ctx: Context, req: Request) returns (resp: Option<Response>)
      modifies this
      ensures resp.None? <==> (req.methodName in methods && methods[req.methodName] == InitializeRoute
        && InitializeOutcome(handler, ctx, req.params).NilResultPanic?)
      ensures resp.Some? ==> resp.value.jsonrpc == Version && resp.value.id == req.id
      ensures req.methodName !in methods ==>
        resp == Some(NewErrorResponse(req.id, MethodNotFoundError(req.methodName))) && TablesAndFlagsUnchanged()
      ensures req.methodName in methods && methods[req.methodName].HandlerRoute? ==>
        resp == Some(Respond(req.id, methods[req.methodName].handler(ctx, req.params))) && TablesAndFlagsUnchanged()
      ensures req.methodName in methods && methods[req.methodName] == InitializeRoute ==>
        && (resp.Some? ==> resp.value == Respond(req.id, InitializeAnswer(handler, InitializeOutcome(handler, ctx, req.params)).value))
        && initialized == (old(initialized) || InitializeOutcome(handler, ctx, req.params).Initialized?)
        && shutdown == old(shutdown)
      ensures req.methodName in methods && methods[req.methodName] == ShutdownRoute ==>
        resp == Some(Respond(req.id, ShutdownAnswer(handler.shutdown(ctx)))) && shutdown && initialized == old(initialized)
      ensures methods == old(methods) && notifications == old(notifications)
      ensures customMethods == old(customMethods) && customNotifs == old(customNotifs)
    {
      if req.methodName !in methods {
        return Some(NewErrorResponse(req.id, MethodNotFoundError(req.methodName)));
      }
      match methods[req.methodName]
      case HandlerRoute(h) =>
        resp := Some(Respond(req.id, h(ctx, req.params)));
      case InitializeRoute =>
        var r := HandleInitialize(ctx, req.params);
        var answer := InitializeAnswer(handler, r);
        if answer.None? {
          return None;
        }
        resp := Some(Respond(req.id, answer.value));
      case ShutdownRoute =>
        var err := HandleShutdown(ctx);
        resp := Some(Respond(req.id, ShutdownAnswer(err)));
    }
  }
}
