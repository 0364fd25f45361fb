/** The application's template registry: compilers keyed by file extension,
    compiled templates keyed by lower-cased path. `T` is the compiled
    template type, left abstract. */
module Templates {
  import opened Wrappers
  import opened Strings
  import opened Paths

  /** An error returned by a template compiler. */
  datatype CompileError = CompileError(message: string)

  /** A template compiler: compiles the file at a path, or fails. */
  type Compiler<T> = string -> Result<T, CompileError>

  datatype App<T> = App(compilers: map<string, Compiler<T>>, templates: map<string, T>)

  /** The registry after an operation, with the error it returned, if any. */
  datatype Step<T> = Step(app: App<T>, err: Option<CompileError>)

  /** `RegisterTemplateCompiler`: `ext` is stored exactly as given, replacing
      any earlier compiler for it; nothing else changes. */
  function RegisterTemplateCompiler<T>(app: App<T>, ext: string, c: Compiler<T>): (a: App<T>)
    ensures ext in a.compilers && a.compilers[ext] == c
    ensures a.compilers.Keys == app.compilers.Keys + {ext}
    ensures forall k :: k in app.compilers && k != ext ==> a.compilers[k] == app.compilers[k]
    ensures a.templates == app.templates
  {
    app.(compilers := app.compilers[ext := c])
  }

  /** `CompileTemplates`: does nothing and reports no error. */
  function CompileTemplates<T>(app: App<T>, path: string, recursive: bool): (s: Step<T>)
    ensures s.app == app && s.err.None?
  {
    Step(app, None)
  }

  /** `addTemplater`: stores `t` under the lower-cased path; nothing else changes. */
  function AddTemplater<T>(app: App<T>, p: string, t: T): (a: App<T>)
    ensures ToLower(p) in a.templates && a.templates[ToLower(p)] == t
    ensures a.templates.Keys == app.templates.Keys + {ToLower(p)}
    ensures forall k :: k in app.templates && k != ToLower(p) ==> a.templates[k] == app.templates[k]
    ensures a.compilers == app.compilers
  {
    app.(templates := app.templates[ToLower(p) := t])
  }

  /** The key a path's compiler is looked up under: its lower-cased extension. */
  function CompilerKey(p: string): (k: string)
    ensures |k| == |Ext(p)| && forall i :: 0 <= i < |k| ==> k[i] == LowerChar(Ext(p)[i])
    ensures !HasUpper(k)
    ensures k == [] || k[0] == '.'
  {
    ToLower(Ext(p))
  }

  /** `compileTemplate`: finds the compiler for the lower-cased extension of
      `p` and hands it `p` unchanged. No compiler is not an error; a compile
      error is returned and stores nothing; a result is stored under the
      lower-cased path. */
  function CompileTemplate<T>(app: App<T>, p: string): (s: Step<T>)
    ensures CompilerKey(p) !in app.compilers ==> s == Step(app, None)
    ensures CompilerKey(p) in app.compilers && app.compilers[CompilerKey(p)](p).Err? ==>
      s == Step(app, Some(app.compilers[CompilerKey(p)](p).error))
    ensures CompilerKey(p) in app.compilers && app.compilers[CompilerKey(p)](p).Ok? ==>
      && s.err.None?
      && s.app.compilers == app.compilers
      && ToLower(p) in s.app.templates
      && s.app.templates[ToLower(p)] == app.compilers[CompilerKey(p)](p).value
      && s.app.templates.Keys == app.templates.Keys + {ToLower(p)}
      && forall k :: k in app.templates && k != ToLower(p) ==> s.app.templates[k] == app.templates[k]
  {
    var ext := CompilerKey(p);
    if ext !in app.compilers then Step(app, None)
    else
      match app.compilers[ext](p)
      case Err(e) => Step(app, Some(e))
      case Ok(t) =>
        ToLowerIdempotent(p);
        Step(AddTemplater(app, ToLower(p), t), None)
  }

  /** Lower-casing the path before `addTemplater`, which lower-cases it again,
      stores under the same key as lower-casing once. */
  lemma AddTemplaterLowerCasesOnce<T>(app: App<T>, p: string, t: T)
    ensures AddTemplater(app, ToLower(p), t) == AddTemplater(app, p, t)
  {
    ToLowerIdempotent(p);
  }

  /** A compiler registered under a key with an upper-case letter is never
      found: registering it changes no compilation's outcome. */
  lemma UpperCaseKeyNeverUsed<T>(app: App<T>, ext: string, c: Compiler<T>, p: string)
    requires HasUpper(ext)
    ensures CompileTemplate(RegisterTemplateCompiler(app, ext, c), p).err == CompileTemplate(app, p).err
    ensures CompileTemplate(RegisterTemplateCompiler(app, ext, c), p).app.templates == CompileTemplate(app, p).app.templates
  {
    ToLowerNeverYieldsUpper(Ext(p), ext);
  }
}
