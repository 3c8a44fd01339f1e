/**
 * The capability record a server advertises in its `initialize` result (lsp/capabilities.go) and
 * its detection from the handler interfaces a server implements (server/capabilities.go).
 */
module Capabilities {
  import opened Wrappers
  import opened JsonRpcErrors

  /** The handler interfaces of server/handlers.go, by name. */
  datatype HandlerIface =
    | LifecycleHandler | SetTraceHandler
    | TextDocumentSyncHandler | TextDocumentSaveHandler
    | TextDocumentWillSaveHandler | TextDocumentWillSaveWaitUntilHandler
    | CompletionHandler | CompletionResolveHandler
    | HoverHandler | SignatureHelpHandler
    | DeclarationHandler | DefinitionHandler | TypeDefinitionHandler | ImplementationHandler
    | ReferencesHandler | DocumentHighlightHandler | DocumentSymbolHandler
    | CodeActionHandler | CodeActionResolveHandler
    | CodeLensHandler | CodeLensResolveHandler
    | DocumentLinkHandler | DocumentLinkResolveHandler
    | DocumentColorHandler | ColorPresentationHandler
    | DocumentFormattingHandler | DocumentRangeFormattingHandler | DocumentOnTypeFormattingHandler
    | RenameHandler | PrepareRenameHandler
    | FoldingRangeHandler | SelectionRangeHandler | LinkedEditingRangeHandler
    | CallHierarchyHandler | TypeHierarchyHandler | MonikerHandler
    | SemanticTokensFullHandler | SemanticTokensDeltaHandler | SemanticTokensRangeHandler
    | InlayHintHandler | InlayHintResolveHandler | InlineValueHandler
    | DocumentDiagnosticHandler | WorkspaceDiagnosticHandler
    | WorkspaceSymbolHandler | ExecuteCommandHandler | WorkspaceFoldersHandler
    | DidChangeConfigurationHandler | DidChangeWatchedFilesHandler
    | WillCreateFilesHandler | WillRenameFilesHandler | WillDeleteFilesHandler

  /** `TextDocumentSyncKind`: none, full or incremental. */
  const SyncNone: int := 0
  const SyncFull: int := 1
  const SyncIncremental: int := 2

  datatype SaveOptions = SaveOptions(includeText: Option<bool>)

  datatype TextDocumentSyncOptions = TextDocumentSyncOptions(
    openClose: Option<bool>,
    change: int,
    willSave: Option<bool>,
    willSaveWaitUntil: Option<bool>,
    save: Option<SaveOptions>)

  datatype CompletionOptions = CompletionOptions(
    triggerCharacters: seq<string>, allCommitCharacters: seq<string>, resolveProvider: Option<bool>)

  datatype SignatureHelpOptions = SignatureHelpOptions(
    triggerCharacters: seq<string>, retriggerCharacters: seq<string>)

  datatype CodeActionOptions = CodeActionOptions(codeActionKinds: seq<string>, resolveProvider: Option<bool>)

  datatype CodeLensOptions = CodeLensOptions(resolveProvider: Option<bool>)

  datatype DocumentLinkOptions = DocumentLinkOptions(resolveProvider: Option<bool>)

  datatype DocumentOnTypeFormattingOptions = DocumentOnTypeFormattingOptions(
    firstTriggerCharacter: string, moreTriggerCharacter: seq<string>)

  datatype RenameOptions = RenameOptions(prepareProvider: Option<bool>)

  datatype ExecuteCommandOptions = ExecuteCommandOptions(commands: seq<string>)

  datatype SemanticTokensFull = SemanticTokensFull(delta: Option<bool>)

  datatype SemanticTokensOptions = SemanticTokensOptions(
    tokenTypes: seq<string>, tokenModifiers: seq<string>, range: Option<bool>, full: Option<SemanticTokensFull>)

  datatype InlayHintOptions = InlayHintOptions(resolveProvider: Option<bool>)

  /** `DiagnosticOptions`: the two flags are plain booleans, never nil. */
  datatype DiagnosticOptions = DiagnosticOptions(
    identifier: string, interFileDependencies: bool, workspaceDiagnostics: bool)

  datatype FileOperationFilter = FileOperationFilter(scheme: string, glob: string)

  datatype FileOperationRegistrationOptions = FileOperationRegistrationOptions(filters: seq<FileOperationFilter>)

  datatype FileOperationOptions = FileOperationOptions(
    didCreate: Option<FileOperationRegistrationOptions>,
    willCreate: Option<FileOperationRegistrationOptions>,
    didRename: Option<FileOperationRegistrationOptions>,
    willRename: Option<FileOperationRegistrationOptions>,
    didDelete: Option<FileOperationRegistrationOptions>,
    willDelete: Option<FileOperationRegistrationOptions>)

  datatype WorkspaceFoldersServerCapabilities = WorkspaceFoldersServerCapabilities(
    supported: Option<bool>, changeNotifications: Option<bool>)

  datatype ServerWorkspaceCapabilities = ServerWorkspaceCapabilities(
    workspaceFolders: Option<WorkspaceFoldersServerCapabilities>,
    fileOperations: Option<FileOperationOptions>)

  /** `ServerCapabilities`: every member may be nil (`None`), `experimental` is raw JSON. */
  datatype ServerCapabilities = ServerCapabilities(
    textDocumentSync: Option<TextDocumentSyncOptions>,
    completionProvider: Option<CompletionOptions>,
    hoverProvider: Option<bool>,
    signatureHelpProvider: Option<SignatureHelpOptions>,
    declarationProvider: Option<bool>,
    definitionProvider: Option<bool>,
    typeDefinitionProvider: Option<bool>,
    implementationProvider: Option<bool>,
    referencesProvider: Option<bool>,
    documentHighlightProvider: Option<bool>,
    documentSymbolProvider: Option<bool>,
    codeActionProvider: Option<CodeActionOptions>,
    codeLensProvider: Option<CodeLensOptions>,
    documentLinkProvider: Option<DocumentLinkOptions>,
    colorProvider: Option<bool>,
    documentFormattingProvider: Option<bool>,
    documentRangeFormattingProvider: Option<bool>,
    documentOnTypeFormattingProvider: Option<DocumentOnTypeFormattingOptions>,
    renameProvider: Option<RenameOptions>,
    foldingRangeProvider: Option<bool>,
    executeCommandProvider: Option<ExecuteCommandOptions>,
    selectionRangeProvider: Option<bool>,
    linkedEditingRangeProvider: Option<bool>,
    callHierarchyProvider: Option<bool>,
    semanticTokensProvider: Option<SemanticTokensOptions>,
    monikerProvider: Option<bool>,
    typeHierarchyProvider: Option<bool>,
    inlayHintProvider: Option<InlayHintOptions>,
    inlineValueProvider: Option<bool>,
    diagnosticProvider: Option<DiagnosticOptions>,
    workspaceSymbolProvider: Option<bool>,
    workspace: Option<ServerWorkspaceCapabilities>,
    experimental: Json)

  /** The zero value: nothing advertised. */
  const NoCapabilities: ServerCapabilities := ServerCapabilities(
    None, None, None, None, None, None, None, None, None, None, None, None, None, None, None, None,
    None, None, None, None, None, None, None, None, None, None, None, None, None, None, None, None, [])

  /** `boolPtr(true)` when the handler implements `i`, nil otherwise. */
  function Flag(impl: set<HandlerIface>, i: HandlerIface): (r: Option<bool>)
    ensures r.Some? <==> i in impl
    ensures r.Some? ==> r.value
  {
    if i in impl then Some(true) else None
  }

  /** The registration shared by the file operations: one filter matching every file. */
  const AllFiles: FileOperationRegistrationOptions :=
    FileOperationRegistrationOptions([FileOperationFilter("", "**/*")])

  /** The file operation a handler interface takes part in, when it does. */
  function FileOp(impl: set<HandlerIface>, i: HandlerIface): Option<FileOperationRegistrationOptions>
  {
    if i in impl then Some(AllFiles) else None
  }

  /**
   * `buildCapabilities`, member by member: a provider is set exactly when its interface is
   * implemented, and a resolve or sub-flag only together with its base interface. The
   * file-operation options exist once any file-operation interface is implemented.
   */
  function BuildCapabilities(impl: set<HandlerIface>): (caps: ServerCapabilities)
    ensures caps.executeCommandProvider.None? && caps.experimental == []
    ensures caps.documentOnTypeFormattingProvider.None? && caps.semanticTokensProvider.None?
    ensures caps.workspace.Some? ==> caps.workspace.value.workspaceFolders.None?
  {
    var sync := TextDocumentSyncHandler in impl;
    var fileOps := WillCreateFilesHandler in impl || WillRenameFilesHandler in impl || WillDeleteFilesHandler in impl;
    ServerCapabilities(
      textDocumentSync :=
        if sync then Some(TextDocumentSyncOptions(
          Some(true), SyncIncremental,
          Flag(impl, TextDocumentWillSaveHandler),
          Flag(impl, TextDocumentWillSaveWaitUntilHandler),
          if TextDocumentSaveHandler in impl then Some(SaveOptions(Some(true))) else None))
        else None,
      completionProvider :=
        if CompletionHandler in impl then Some(CompletionOptions([], [], Flag(impl, CompletionResolveHandler))) else None,
      hoverProvider := Flag(impl, HoverHandler),
      signatureHelpProvider := if SignatureHelpHandler in impl then Some(SignatureHelpOptions([], [])) else None,
      declarationProvider := Flag(impl, DeclarationHandler),
      definitionProvider := Flag(impl, DefinitionHandler),
      typeDefinitionProvider := Flag(impl, TypeDefinitionHandler),
      implementationProvider := Flag(impl, ImplementationHandler),
      referencesProvider := Flag(impl, ReferencesHandler),
      documentHighlightProvider := Flag(impl, DocumentHighlightHandler),
      documentSymbolProvider := Flag(impl, DocumentSymbolHandler),
      codeActionProvider :=
        if CodeActionHandler in impl then Some(CodeActionOptions([], Flag(impl, CodeActionResolveHandler))) else None,
      codeLensProvider :=
        if CodeLensHandler in impl then Some(CodeLensOptions(Flag(impl, CodeLensResolveHandler))) else None,
      documentLinkProvider :=
        if DocumentLinkHandler in impl then Some(DocumentLinkOptions(Flag(impl, DocumentLinkResolveHandler))) else None,
      colorProvider := Flag(impl, DocumentColorHandler),
      documentFormattingProvider := Flag(impl, DocumentFormattingHandler),
      documentRangeFormattingProvider := Flag(impl, DocumentRangeFormattingHandler),
      documentOnTypeFormattingProvider := None,
      renameProvider := if RenameHandler in impl then Some(RenameOptions(Flag(impl, PrepareRenameHandler))) else None,
      foldingRangeProvider := Flag(impl, FoldingRangeHandler),
      executeCommandProvider := None,
      selectionRangeProvider := Flag(impl, SelectionRangeHandler),
      linkedEditingRangeProvider := Flag(impl, LinkedEditingRangeHandler),
      callHierarchyProvider := Flag(impl, CallHierarchyHandler),
      semanticTokensProvider := None,
      monikerProvider := Flag(impl, MonikerHandler),
      typeHierarchyProvider := Flag(impl, TypeHierarchyHandler),
      inlayHintProvider :=
        if InlayHintHandler in impl then Some(InlayHintOptions(Flag(impl, InlayHintResolveHandler))) else None,
      inlineValueProvider := Flag(impl, InlineValueHandler),
      diagnosticProvider :=
        if DocumentDiagnosticHandler in impl
        then Some(DiagnosticOptions("", false, WorkspaceDiagnosticHandler in impl)) else None,
      workspaceSymbolProvider := Flag(impl, WorkspaceSymbolHandler),
      workspace :=
        if fileOps then Some(ServerWorkspaceCapabilities(None, Some(FileOperationOptions(
          None, FileOp(impl, WillCreateFilesHandler), None, FileOp(impl, WillRenameFilesHandler),
          None, FileOp(impl, WillDeleteFilesHandler)))))
        else None,
      experimental := [])
  }

  /** Text document sync is advertised exactly for a sync handler, always open/close and incremental. */
  lemma SyncAdvertised(impl: set<HandlerIface>)
    ensures BuildCapabilities(impl).textDocumentSync.Some? <==> TextDocumentSyncHandler in impl
    ensures BuildCapabilities(impl).textDocumentSync.Some? ==>
      var sync := BuildCapabilities(impl).textDocumentSync.value;
      && sync.openClose == Some(true) && sync.change == SyncIncremental
      && (sync.save.Some? <==> TextDocumentSaveHandler in impl)
      && (sync.willSave.Some? <==> TextDocumentWillSaveHandler in impl)
      && (sync.willSaveWaitUntil.Some? <==> TextDocumentWillSaveWaitUntilHandler in impl)
  {
  }

  /**
   * A resolve or prepare flag is set only when both its base interface and its own interface are
   * implemented, and the base provider is set exactly for the base interface.
   */
  lemma SubFlagsNeedTheirBase(impl: set<HandlerIface>)
    ensures var c := BuildCapabilities(impl);
      && (c.completionProvider.Some? <==> CompletionHandler in impl)
      && (c.completionProvider.Some? ==> (c.completionProvider.value.resolveProvider.Some? <==> CompletionResolveHandler in impl))
      && (c.codeActionProvider.Some? <==> CodeActionHandler in impl)
      && (c.codeActionProvider.Some? ==> (c.codeActionProvider.value.resolveProvider.Some? <==> CodeActionResolveHandler in impl))
      && (c.codeLensProvider.Some? <==> CodeLensHandler in impl)
      && (c.codeLensProvider.Some? ==> (c.codeLensProvider.value.resolveProvider.Some? <==> CodeLensResolveHandler in impl))
      && (c.documentLinkProvider.Some? <==> DocumentLinkHandler in impl)
      && (c.documentLinkProvider.Some? ==> (c.documentLinkProvider.value.resolveProvider.Some? <==> DocumentLinkResolveHandler in impl))
      && (c.renameProvider.Some? <==> RenameHandler in impl)
      && (c.renameProvider.Some? ==> (c.renameProvider.value.prepareProvider.Some? <==> PrepareRenameHandler in impl))
      && (c.inlayHintProvider.Some? <==> InlayHintHandler in impl)
      && (c.inlayHintProvider.Some? ==> (c.inlayHintProvider.value.resolveProvider.Some? <==> InlayHintResolveHandler in impl))
      && (c.diagnosticProvider.Some? <==> DocumentDiagnosticHandler in impl)
      && (c.diagnosticProvider.Some? ==> (c.diagnosticProvider.value.workspaceDiagnostics <==> WorkspaceDiagnosticHandler in impl))
  {
  }

  /** A plain boolean provider is either nil or true, and it is set exactly for its interface. */
  lemma BooleanProvidersAreTrue(impl: set<HandlerIface>)
    ensures BuildCapabilities(impl).hoverProvider == Flag(impl, HoverHandler)
    ensures BuildCapabilities(impl).declarationProvider == Flag(impl, DeclarationHandler)
    ensures BuildCapabilities(impl).definitionProvider == Flag(impl, DefinitionHandler)
    ensures BuildCapabilities(impl).typeDefinitionProvider == Flag(impl, TypeDefinitionHandler)
    ensures BuildCapabilities(impl).implementationProvider == Flag(impl, ImplementationHandler)
    ensures BuildCapabilities(impl).referencesProvider == Flag(impl, ReferencesHandler)
    ensures BuildCapabilities(impl).documentHighlightProvider == Flag(impl, DocumentHighlightHandler)
    ensures BuildCapabilities(impl).documentSymbolProvider == Flag(impl, DocumentSymbolHandler)
    ensures BuildCapabilities(impl).colorProvider == Flag(impl, DocumentColorHandler)
    ensures BuildCapabilities(impl).documentFormattingProvider == Flag(impl, DocumentFormattingHandler)
    ensures BuildCapabilities(impl).documentRangeFormattingProvider == Flag(impl, DocumentRangeFormattingHandler)
    ensures BuildCapabilities(impl).foldingRangeProvider == Flag(impl, FoldingRangeHandler)
    ensures BuildCapabilities(impl).selectionRangeProvider == Flag(impl, SelectionRangeHandler)
    ensures BuildCapabilities(impl).linkedEditingRangeProvider == Flag(impl, LinkedEditingRangeHandler)
    ensures BuildCapabilities(impl).callHierarchyProvider == Flag(impl, CallHierarchyHandler)
    ensures BuildCapabilities(impl).monikerProvider == Flag(impl, MonikerHandler)
    ensures BuildCapabilities(impl).typeHierarchyProvider == Flag(impl, TypeHierarchyHandler)
    ensures BuildCapabilities(impl).inlineValueProvider == Flag(impl, InlineValueHandler)
    ensures BuildCapabilities(impl).workspaceSymbolProvider == Flag(impl, WorkspaceSymbolHandler)
  {
  }

  /**
   * The workspace member is set exactly when a file-operation interface is implemented; then it
   * holds exactly those "will" operations, each with the one all-files filter.
   */
  lemma WorkspaceFileOperations(impl: set<HandlerIface>)
    ensures var ops := {WillCreateFilesHandler, WillRenameFilesHandler, WillDeleteFilesHandler};
      BuildCapabilities(impl).workspace.Some? <==> ops * impl != {}
    ensures BuildCapabilities(impl).workspace.Some? ==>
      var w := BuildCapabilities(impl).workspace.value;
      && w.workspaceFolders.None? && w.fileOperations.Some?
      && var f := w.fileOperations.value;
      && f.didCreate.None? && f.didRename.None? && f.didDelete.None?
      && (f.willCreate.Some? <==> WillCreateFilesHandler in impl)
      && (f.willRename.Some? <==> WillRenameFilesHandler in impl)
      && (f.willDelete.Some? <==> WillDeleteFilesHandler in impl)
      && (f.willCreate.Some? ==> f.willCreate.value.filters == [FileOperationFilter("", "**/*")])
      && (f.willRename.Some? ==> f.willRename.value.filters == [FileOperationFilter("", "**/*")])
      && (f.willDelete.Some? ==> f.willDelete.value.filters == [FileOperationFilter("", "**/*")])
  {
    var ops := {WillCreateFilesHandler, WillRenameFilesHandler, WillDeleteFilesHandler};
    if WillCreateFilesHandler in impl {
      assert WillCreateFilesHandler in ops * impl;
    } else if WillRenameFilesHandler in impl {
      assert WillRenameFilesHandler in ops * impl;
    } else if WillDeleteFilesHandler in impl {
      assert WillDeleteFilesHandler in ops * impl;
    }
  }
}
