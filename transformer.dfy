/** `transform_file` of src/transformer/mod.rs: picks the transformer from the file's
    extension and hands the file to it. */
module Transformer {
  import opened Wrappers
  import opened Errors
  import opened Types
  import opened Syntax
  import opened Paths
  import PythonTransformer
  import TypeScriptTransformer

  /** `transform_file`: an unsupported file is reported, not an error, and nothing is
      written; TypeScript and JavaScript files go to the TypeScript transformer and
      Python files to the Python one, whose result is returned as it is. */
  method TransformFile(path: string, source: string, p: Provider, proxyUrl: string, envVar: string, engine: Engine)
    returns (r: Result<TransformResult>, written: Option<string>)
    requires LanguageOfPath(path) == Some(Python) ==>
      PythonTransformer.Ready(source, p, proxyUrl, envVar, engine(source, PythonTransformer.QueryForProvider(p)))
    requires LanguageOfPath(path) == Some(TypeScript) || LanguageOfPath(path) == Some(JavaScript) ==>
      HasLiveQuery(p) &&
      TypeScriptTransformer.Ready(source, p, proxyUrl, envVar, engine(source, TypeScriptTransformer.QueryForProvider(p)))
    ensures LanguageOfPath(path).None? ==>
      r == Ok(TransformResult(path, false, false, Some("Unsupported file type"))) && written.None?
    ensures LanguageOfPath(path) == Some(Python) ==>
      (r, written) == PythonTransformer.Expected(path, source, p, proxyUrl, envVar,
                                                 engine(source, PythonTransformer.QueryForProvider(p)))
    ensures LanguageOfPath(path) == Some(TypeScript) || LanguageOfPath(path) == Some(JavaScript) ==>
      (r, written) == TypeScriptTransformer.Expected(path, source, p, proxyUrl, envVar,
                                                     engine(source, TypeScriptTransformer.QueryForProvider(p)))
  {
    var ext := Extension(path).GetOr("");
    var language := LanguageFromExtension(ext);
    match language {
      case None =>
        return Ok(TransformResult(path, false, false, Some("Unsupported file type"))), None;
      case Some(TypeScript) =>
        r, written := TypeScriptTransformer.TransformFile(path, source, p, proxyUrl, envVar, engine);
      case Some(JavaScript) =>
        r, written := TypeScriptTransformer.TransformFile(path, source, p, proxyUrl, envVar, engine);
      case Some(Python) =>
        r, written := PythonTransformer.TransformFile(path, source, p, proxyUrl, envVar, engine);
    }
  }

  /** The dispatch table: `ts`, `tsx`, `js` and `jsx` go to the TypeScript transformer,
      `py` to the Python one, and every other extension, or none, is unsupported. */
  lemma DispatchTable(path: string)
    ensures Extension(path).None? ==> LanguageOfPath(path).None?
    ensures LanguageOfPath(path) == Some(TypeScript) || LanguageOfPath(path) == Some(JavaScript) <==>
      Extension(path).Some? && Extension(path).value in {"ts", "tsx", "js", "jsx"}
    ensures LanguageOfPath(path) == Some(Python) <==> Extension(path) == Some("py")
    ensures LanguageOfPath(path).None? <==>
      Extension(path).None? || Extension(path).value !in {"ts", "tsx", "js", "jsx", "py"}
  {
  }

  /** A concrete dispatch: `app/main.py` goes to the Python transformer. */
  lemma PythonFileDispatch()
    ensures LanguageOfPath("app/main.py") == Some(Python)
  {
    FileNameOfJoin("app", "main.py");
    assert "app" + "/" + "main.py" == "app/main.py";
    assert "app/main.py"[4..] == "main.py";
    LastIndexAppend("main.", "py", '.');
    assert "main." + "py" == "main.py";
  }

  /** A file without a dot in its name has no extension and is unsupported. */
  lemma NoExtensionUnsupported()
    ensures LanguageOfPath("Makefile").None?
  {
  }
}
