# Live preview of generated React components, modelled in Dafny

`PreviewScreen` (src/components/artifacts/preview-screen.tsx) takes component source text,
rewrites its `import` and `export default` declarations with a small Babel plugin, evaluates
the result with `new Function("scope", ...)` against a scope object built from eight library
namespaces, and shows either the component (under an `ErrorBoundary`), a loading placeholder,
or a compilation-error panel. This project models the logic that belongs to that file:

- `import_to_variable.dfy` (module `ImportToVariable`): the plugin's rewrite rules, as a function
  over a small syntax tree of top-level statements. It also has a validity predicate for the
  function body that `new Function` receives, and a corrected rewrite (see Findings).
- `capability_scope.dfy` (module `CapabilityScope`): the `scope` object literal, modelled as an
  ordered merge of name-to-value maps in which later spreads win.
- `preview_effect.dfy` (module `PreviewEffect`): the effect that runs `compileAndRender`. A
  `Preview` class holds the `component` and `error` state. An `Attempt` class holds one effect
  run's `isMounted` flag. The outcome of transform plus evaluation is an input: it threw, it
  returned a function, or it returned something else. A pure timeline of effect runs proves
  that a run whose cleanup has happened never changes the state.
- `preview_display.dfy` (module `PreviewDisplay`): the render-time choice between the error
  panel and the boundary, and the `ErrorBoundary` class with its one-way `hasError` latch. It
  also has a `Screen` class that keeps the mounted boundary instance across renders, as React
  does for an unkeyed element in the same position.
- `base.dfy` (module `Base`): `Option` (JavaScript `null`) and `Name`.

Four behaviours of the code are easy to misread; the model follows the code:

- A named import `import { a as b }` becomes `const b = scope.a`: the binding takes the local
  alias and the lookup takes the imported name.
- Named exports are not dropped. The plugin has no visitor for them, so they stay in the
  generated text (`ExportNamed` is kept by `Rewrite`), and `new Function` then throws.
- There is no version token. Each effect run has only its own `isMounted` flag, and a new run
  does not reset `component` or `error`. While a new attempt is pending, the previous
  component or error stays on screen. "Loading..." appears only before the first component.
- `compileAndRender` is declared `async` but contains no `await`, so in the real code it runs
  to completion before its cleanup can run. The model does not rely on that: completions may
  arrive in any order, and the flag is what discards them.

`Attempt.CompileAndRender` and the timeline's `Step` meet in `Settle`: the method's new state is
`Settle(old state, isMounted, outcome)`, and a `Resolved(a, outcome)` step sets the view to
`Settle(view, a in mounted, outcome)`. Membership of an attempt in `mounted` is its
`isMounted` flag: `CodeChanged` and `Unmounted` are the `Cleanup` calls React makes.

## Model

| member | source | states |
|---|---|---|
| ImportToVariable.Declare | src/components/artifacts/preview-screen.tsx:57-77 | a namespace specifier yields nothing; a default or named specifier yields a declarator binding its local name to a member of `scope`, the imported name for a named specifier and the local name for a default one |
| ImportToVariable.ImportDeclarators | src/components/artifacts/preview-screen.tsx:56-78 | one declarator per default or named specifier and none per namespace specifier; a default specifier binds its local name to `scope.<local>`; a named specifier binds its local name to `scope.<imported>`; every declarator comes from such a specifier and reads a member of `scope` |
| ImportToVariable.ImportDeclaratorsAppend | src/components/artifacts/preview-screen.tsx:56-78 | the declarators keep the order of their specifiers (the map-and-filter distributes over concatenation) |
| ImportToVariable.RewriteExportDefault | src/components/artifacts/preview-screen.tsx:82-115 | a default export becomes statements that assign `exports.default` exactly once, the assignment coming last; a function declaration is kept unchanged and its name is assigned, falling back to the identifier `default`; an expression declaration is assigned untouched |
| ImportToVariable.RewriteStatement | src/components/artifacts/preview-screen.tsx:53-117 | an import becomes a single `const` of its declarators; a default export becomes what `RewriteExportDefault` gives for its declaration; no import or default export survives; every other statement is left as it is |
| ImportToVariable.Rewrite | src/components/artifacts/preview-screen.tsx:53-117 | the output has no import or default export, and every other statement of the program (named exports included) is still there; with `RewriteAppend`, the output is the concatenation of `RewriteStatement` of each statement in order |
| ImportToVariable.RewriteAppend | src/components/artifacts/preview-screen.tsx:53-117 | each statement is replaced in place, in program order |
| ImportToVariable.RewriteKeepsPlainProgram | src/components/artifacts/preview-screen.tsx:53-117 | a program without imports and default exports is left unchanged |
| ImportToVariable.RewriteIdempotent | src/components/artifacts/preview-screen.tsx:53-117 | running the plugin on its own output changes nothing |
| ImportToVariable.SlotWritesAfterRewrite | src/components/artifacts/preview-screen.tsx:82-115 | the rewritten program assigns `exports.default` once per default export, on top of the assignments already written by hand |
| ImportToVariable.SingleDefaultExportAssignsSlotOnce | src/components/artifacts/preview-screen.tsx:82-115 | a module with one default export and no hand-written slot assignment assigns the slot exactly once |
| ImportToVariable.NamespaceOnlyImportYieldsEmptyConst | src/components/artifacts/preview-screen.tsx:56-80 | as written, an import whose specifiers are all namespace imports (a valid module line) becomes `const` with no declarator, which is not a valid statement |
| ImportToVariable.AnonymousDefaultFunctionYieldsInvalidScript | src/components/artifacts/preview-screen.tsx:84-99 | as written, `export default function () {...}` (a valid module line) becomes an unnamed function statement followed by `exports.default = default`, which is not valid |
| ImportToVariable.RewriteStatementFixed | src/components/artifacts/preview-screen.tsx:55-115 | corrected rewrite: an import with no declarator is dropped; an anonymous default-exported function is assigned to `exports.default` as a function expression; elsewhere it agrees with the plugin wherever the plugin's output is valid; every default export still ends with a slot assignment; no import or default export survives; every other statement is left as it is |
| ImportToVariable.RewriteFixed | src/components/artifacts/preview-screen.tsx:53-117 | corrected whole-program rewrite: no import or default export is left, and every other statement of the program is still there |
| ImportToVariable.RewriteStatementFixedIsValid | src/components/artifacts/preview-screen.tsx:55-115 | the corrected rewrite of any valid module statement other than a named export is a valid function-body statement |
| ImportToVariable.RewriteFixedIsValidScript | src/components/artifacts/preview-screen.tsx:53-117 | the corrected rewrite of a valid module without named exports is a valid function body |
| CapabilityScope.Spread | src/components/artifacts/preview-screen.tsx:136-151 | an object built from a single spread is a copy of its source; every name of the last source is in the result |
| CapabilityScope.SpreadKeys | src/components/artifacts/preview-screen.tsx:136-151 | a name is in the merged object exactly when some spread source defines it |
| CapabilityScope.SpreadLastWins | src/components/artifacts/preview-screen.tsx:136-151 | the merged value for a name is the one from the last source in spread order that defines it |
| CapabilityScope.SpreadAppend | src/components/artifacts/preview-screen.tsx:136-151 | spreading two groups of sources one after the other is the same as spreading them all |
| CapabilityScope.ReactEntry | src/components/artifacts/preview-screen.tsx:137-142 | the `React` entry has React's names plus the three pinned hooks; it agrees with React on every name React defines, so the pins change nothing; a pinned hook React lacks is `undefined` |
| CapabilityScope.Scope | src/components/artifacts/preview-screen.tsx:136-151 | the `scope` object always binds `React`, and the last spread (drei) wins every name it defines |
| CapabilityScope.ScopeNames | src/components/artifacts/preview-screen.tsx:136-151 | the names visible to the generated code are exactly `React` and the names the eight libraries define |
| CapabilityScope.ScopeLastLibraryWins | src/components/artifacts/preview-screen.tsx:143-150 | a library name resolves to the binding of the last library in spread order that defines it; a library defining `React` overrides the explicit entry |
| CapabilityScope.ScopeReactEntry | src/components/artifacts/preview-screen.tsx:136-151 | when no library defines `React`, `scope.React` is the explicit entry |
| PreviewEffect.CatchMessage | src/components/artifacts/preview-screen.tsx:172-178 | the caught message is the error's message when it is non-empty, otherwise the fallback text; it is never empty; nothing reaches `setError` when a thrown `null` makes the `.message` read itself throw |
| PreviewEffect.ApplyOutcome | src/components/artifacts/preview-screen.tsx:162-179 | a function result sets the component and clears the error; a non-function result sets the fixed invalid-component message; a thrown value sets its message or the fallback; no failure touches the component; every failure that reaches `setError` leaves a truthy error; no empty error is introduced |
| PreviewEffect.Settle | src/components/artifacts/preview-screen.tsx:163-178 | the `if (isMounted)` guards: an unmounted attempt leaves the state as it is; a mounted one applies its outcome; only a mounted attempt changes anything; no empty error is introduced |
| PreviewEffect.Preview.constructor | src/components/artifacts/preview-screen.tsx:120-121 | both state values start as `null` |
| PreviewEffect.Preview.SetComponent | src/components/artifacts/preview-screen.tsx:120 | sets `component` and leaves `error` alone |
| PreviewEffect.Preview.SetError | src/components/artifacts/preview-screen.tsx:121 | sets `error` and leaves `component` alone |
| PreviewEffect.Attempt.constructor | src/components/artifacts/preview-screen.tsx:124 | an effect run starts with `isMounted` true |
| PreviewEffect.Attempt.CompileAndRender | src/components/artifacts/preview-screen.tsx:126-180 | while `isMounted` holds, the state becomes the outcome applied to it; after cleanup the state is not changed at all |
| PreviewEffect.Attempt.Cleanup | src/components/artifacts/preview-screen.tsx:184-186 | the cleanup clears `isMounted` |
| PreviewEffect.Step | src/components/artifacts/preview-screen.tsx:123-187 | a code change cleans up the running run and starts a new one without resetting the state; a completion of a still-mounted run applies its outcome, and a completion of any other run changes nothing; an unmount clears every flag and starts nothing |
| PreviewEffect.RunKeepsOnlyLatestMounted | src/components/artifacts/preview-screen.tsx:123-187 | at any time at most one run is mounted, and it is the latest one started |
| PreviewEffect.OnlyLatestAttemptApplies | src/components/artifacts/preview-screen.tsx:163-179 | a completion that changes the state belongs to the latest run |
| PreviewEffect.SupersededAttemptIsDiscarded | src/components/artifacts/preview-screen.tsx:123-187 | once a run's cleanup has happened, its completion, whenever it arrives, leaves the whole timeline exactly as if it had never arrived |
| PreviewEffect.NothingAppliedAfterUnmount | src/components/artifacts/preview-screen.tsx:184-186 | after the screen unmounts, no completion changes the state |
| PreviewEffect.LatestOutcomeWinsOutOfOrder | src/components/artifacts/preview-screen.tsx:123-187 | when the code changes twice and the first run completes after the second, only the second run's outcome is applied |
| PreviewEffect.RunKeepsNoEmptyError | src/components/artifacts/preview-screen.tsx:162-179 | `error` is never the empty string, so its truthiness test at line 189 is the same as a null test |
| PreviewDisplay.Select | src/components/artifacts/preview-screen.tsx:189-209 | the compilation-error panel is shown exactly when `error` is truthy, whatever `component` holds; otherwise the boundary wraps the component's element when there is one and "Loading..." when there is none |
| PreviewDisplay.SelectAfterOutcome | src/components/artifacts/preview-screen.tsx:162-209 | after a function result the component is mounted; after any other result that reaches `setError` the error panel is shown and nothing is mounted |
| PreviewDisplay.StoredMessage | src/components/artifacts/preview-screen.tsx:44 | the runtime panel shows the caught value's message when it has one and nothing otherwise |
| PreviewDisplay.ErrorBoundary.constructor | src/components/artifacts/preview-screen.tsx:23-26 | the boundary starts with `hasError` false and no error |
| PreviewDisplay.ErrorBoundary.CatchRenderError | src/components/artifacts/preview-screen.tsx:28-30 | a render failure below sets `hasError` and stores the error; nothing sets it back |
| PreviewDisplay.ErrorBoundary.Render | src/components/artifacts/preview-screen.tsx:32-50 | the runtime-error panel with the stored message once `hasError` is set, and the children unchanged before that |
| PreviewDisplay.Screen.constructor | src/components/artifacts/preview-screen.tsx:205-209 | a fresh screen has no boundary mounted |
| PreviewDisplay.Screen.Commit | src/components/artifacts/preview-screen.tsx:189-209 | the error panel unmounts the boundary; otherwise the mounted boundary is reused, or a fresh unlatched one is mounted, and its render is shown; a latched boundary keeps showing its runtime error |
| PreviewDisplay.Screen.ReportRenderError | src/components/artifacts/preview-screen.tsx:28-30 | a child failure latches the mounted boundary with that error |
| PreviewDisplay.Screen.CommitKeyed | src/components/artifacts/preview-screen.tsx:205-209 | corrected commit: a component different from the one the boundary was mounted for gets a fresh boundary and is rendered |
| PreviewDisplay.StaleRuntimeErrorAfterRecompile | src/components/artifacts/preview-screen.tsx:205-209 | as written: component 1 throws while rendering, then component 2 compiles cleanly, and the screen still shows component 1's runtime error |
| PreviewDisplay.FreshComponentAfterRecompile | src/components/artifacts/preview-screen.tsx:205-209 | corrected: the same events show component 2 |

## Left out

- Babel parsing and the `react` preset's JSX lowering (lines 129-132): they belong to an external library. A parse or transform failure is the `Threw` outcome.
- `new Function` and evaluating the template at lines 153-160: this is dynamic JavaScript evaluation. Its result is the abstract `Outcome`.
- The text of the generated code: the rewrite works on a tree, and opaque statements and expressions are carried as text that is never inspected.
- The contents of the eight library namespaces: they are foreign bindings, modelled as opaque maps.
- React scheduling, hook semantics, effect timing and when `getDerivedStateFromError` runs: these are framework internals. Only the state changes they cause are modelled, and `Screen` models only the keep-or-remount rule for the boundary.
- `console.log` / `console.error`, styles and markup layout: I/O and presentation.
- A thrown value whose `message` is a non-string truthy value: error messages are modelled as strings.
- The promise rejection that a thrown `null` causes in `compileAndRender`: it is not caught in the component, and the model only records that the state is untouched.
- RewriteExportDefault: `export default class App ... {}` (a class declaration, which takes the non-function branch at lines 100-113) is not modelled; `Declaration` has only function and expression cases. What Babel's `assignmentExpression` builder does with a class declaration as its right-hand side is not part of this model; it most likely rejects it, which would reach the user as a compilation error.
- Import specifiers whose imported name is a string literal, and `import` declarations inside other statements: they are not modelled.
- The validity predicate for generated code checks reserved words, empty `const` declarations and unnamed function statements. It does not check duplicate bindings or the validity of the opaque text. Import locals and default-exported function names in a module are checked against the strict-mode reserved words; identifiers inside expressions and the names in other statements are checked only against the words reserved in every mode (plus `let` for a `const` name).

## Findings

| source | as written | input that shows it | evidently intended | confidence | as-written member | corrected member |
|---|---|---|---|---|---|---|
| src/components/artifacts/preview-screen.tsx:56-80 | an import that yields no declarator is still replaced by `t.variableDeclaration("const", [])`, which prints as `const ;` | `import * as React from "react";` (also a bare `import "./x.css";`) | drop that import (modelled), or bind the namespace as `const React = scope`; dropping it leaves the namespace name unbound, so code that uses it, such as `THREE.Mesh`, still fails, at evaluation time instead of at parse time | not executed; depends on Babel printing an empty declarator list as `const ;` | ImportToVariable.NamespaceOnlyImportYieldsEmptyConst | ImportToVariable.RewriteStatementFixed |
| src/components/artifacts/preview-screen.tsx:84-99 | an anonymous default-exported function is emitted as an unnamed function statement, followed by `exports.default = default`, where `default` is a reserved word | `export default function () { return null; }` | assign the function itself to `exports.default` as a function expression | not executed; high for the reserved word | ImportToVariable.AnonymousDefaultFunctionYieldsInvalidScript | ImportToVariable.RewriteStatementFixed |
| src/components/artifacts/preview-screen.tsx:205-209 | the `ErrorBoundary` has no key, so a boundary latched by one component's render failure stays mounted and latched when a newly compiled component replaces it | code whose component throws while rendering, edited directly into code whose component renders, with no compilation error in between | remount the boundary for each new component, e.g. a `key` | not executed; relies on React keeping an unkeyed element's state at the same position | PreviewDisplay.StaleRuntimeErrorAfterRecompile | PreviewDisplay.FreshComponentAfterRecompile |
