# ckjm metrics engine in Dafny

This project models the metrics-accumulation core of ckjm, a tool that computes the
Chidamber–Kemerer metrics of compiled Java classes: WMC, DIT, NOC, CBO, RFC and LCOM,
together with the public-method count NPM and the afferent couplings. One class analyser
walks a class, its fields, its methods and the instructions of each method. It keeps three
transient collections:

- the efferent set of coupled classes (its size becomes CBO);
- the response set of method signatures (its size becomes RFC);
- one set of the class's own fields per method (these drive LCOM).

It also updates a registry of per-class records shared by every class analysis of a run.

## Layout

- `bytecode.dfy` (`Bytecode`): the decoded class records the engine reads: types,
  instructions, exception handlers, fields, methods and classes.
- `naming.dfy` (`Naming`): `getClassName` and the signature strings of the response set.
- `registry.dfy` (`Registry`): the metrics record, lazy lookup, and `ClassMetricsContainer`
  as a class holding a `map`, with the reporting selection.
- `cohesion.dfy` (`Cohesion`): the LCOM pair counter and its meaning.
- `effects.dfy` (`Effects`): each step inside a method visit as a function from the state
  before to the state after. `Absorb` is a reference definition: couple to some names, add
  some responses, add some fields. Every step is proved equal to one `Absorb`.
- `class_effects.dfy` (`ClassEffects`): the method visit, the class visit and the final
  accounting as functions, with their effects proved.
- `laws.dfy` (`EffectLaws`): idempotence, order independence, and what the instruction scan
  records.
- `visitors.dfy` (`Visitors`): `ClassVisitor` and `MethodVisitor` as classes whose methods
  change the analyser's fields and the registry. Each method is proved to leave exactly the
  state the matching function describes.
- `instruction_visitor.dfy`, `exception_handler.dfy`: the stand-alone `InstructionVisitor`
  and `ExceptionHandler` classes, proved against the same functions as the method
  analyser's own handlers and handler loop. They therefore have the same effect.
- `analysis.dfy` (`Analysis`): a run of class analyses over one registry. It proves facts
  about each class's own record, about the other records, and about the child counts, WMC
  and visited flags that accumulate over a run.

The scan guard at `MethodVisitor.java:62` hands an instruction to its handler when
`isVisitableInstruction` is false. The predicate's name suggests the opposite reading, in
which the instructions it accepts are the ones visited. The decoder's shared instruction
table, which the predicate consults, only has entries for instructions without operands.
Under that reading, field accesses, invocations, `instanceof` and `checkcast` would never
reach their handlers. The model keeps the guard as written: it dispatches exactly the
instructions the predicate rejects, returns and constant pushes included.
`EffectLaws.ByNameScanMissesOperands` shows what the opposite reading would miss.

`MethodVisitor` handles instructions and exception handlers itself. The stand-alone
`InstructionVisitor` and `ExceptionHandler` classes are never used by the rest of the
engine. They are modelled as well, and proved to have the same effect as the method
analyser's own handlers and handler loop.

## Model

The step functions (`AfterInstruction`, `AfterCode`, `AfterHandlers`, `AfterMethod`,
`AfterClass`, `AnalyzeClass`, `AnalyzeAll`) and the gate `Couples` carry no contract of their
own. Each is described by the lemmas about it: the `*AsAbsorb` rows for the steps inside a
method, `MethodEffect` and the `Methods*` rows for `AfterMethod`, `ClassOwnRecord`,
`ClassOtherRecords` and `ClassTransients` for `AfterClass`, the `*AfterAnalysis` and
`*AfterAll` rows for `AnalyzeClass` and `AnalyzeAll`, and `Coupled` for `Couples`. The pair
counter `Counter` is described by `CounterCountsPairs`.

| member | source | states |
|---|---|---|
| Naming.GetClassName | src/gr/spinellis/ckjm/ClassVisitor.java:180-191 | primitive and void types give "java.PRIMITIVE"; an array, at any depth, gives its innermost element's name, so an array of primitives also gives "java.PRIMITIVE"; a class type gives its own name |
| Naming.Signature | src/gr/spinellis/ckjm/ClassVisitor.java:145-151 | a response entry starts with the owner followed by '.', ends with ')', has length owner + name + argument list + 3, and is "owner.name()" with no arguments |
| Naming.ArgumentListEmpty | src/gr/spinellis/ckjm/ClassVisitor.java:146-148 | the text between the parentheses is empty exactly when there are no arguments |
| Naming.ArgumentList | src/gr/spinellis/ckjm/ClassVisitor.java:146-148 | no arguments give the empty text, and one argument gives that type's rendering without brackets; `ArgumentListJoins` gives the general case |
| Naming.ArgumentListJoins | src/gr/spinellis/ckjm/ClassVisitor.java:146-148 | for every argument list, the text is the rendered types joined with ", " from the left, as the list rendering without its brackets is |
| Naming.ArgumentListInjective | src/gr/spinellis/ckjm/ClassVisitor.java:146-148 | two argument lists with the same text render the same argument types, one by one |
| Naming.OverloadsDistinct | src/gr/spinellis/ckjm/MethodVisitor.java:98-99 | overloads of one owner and name whose argument types render differently get different response entries, so they are measured separately |
| Registry.Lookup | src/gr/spinellis/ckjm/ClassMetricsContainer.java:39-41 | after a lookup the name is a key, no other key is added, no stored record changes, and a new name gets a fresh default record |
| Registry.AddAfferent | src/gr/spinellis/ckjm/ClassVisitor.java:115 | only the target's record changes, and it changes only by gaining the source in its afferent set; the record is created if absent |
| Registry.AddAfferentAll | src/gr/spinellis/ckjm/ClassVisitor.java:115 | every target's record gains the source as afferent; every other record is unchanged |
| Registry.AddAfferentAllThen | src/gr/spinellis/ckjm/ClassVisitor.java:109-117 | recording two sets of targets in turn is recording their union, so order and repetition do not matter |
| Registry.IncNoc | src/gr/spinellis/ckjm/ClassVisitor.java:84-86 | the named record, created if absent, gains one child; every other record is unchanged |
| Registry.ClassMetricsContainer.constructor | src/gr/spinellis/ckjm/ClassMetricsContainer.java:36 | a new registry holds no record |
| Registry.ClassMetricsContainer.GetMetrics | src/gr/spinellis/ckjm/ClassMetricsContainer.java:39-41 | returns the stored record, or a fresh one that is then stored; a second lookup of the same name changes nothing and returns the same record |
| Registry.ClassMetricsContainer.PrintMetrics | src/gr/spinellis/ckjm/ClassMetricsContainer.java:44-48 | delivers a name exactly when its record is visited and either everything is included or the record is public; each name at most once, with its stored record |
| Registry.ShouldReport | src/gr/spinellis/ckjm/ClassMetricsContainer.java:46 | a record is reported only if visited; with includeAll exactly when visited, otherwise exactly when visited and public |
| Cohesion.Lcom | src/gr/spinellis/ckjm/ClassVisitor.java:203-204 | LCOM is never negative, and is either the pair counter or zero, never below the counter |
| Cohesion.CounterAppend | src/gr/spinellis/ckjm/ClassVisitor.java:209-218 | one more method adds exactly its +1/-1 steps against every earlier method |
| Cohesion.CounterCountsPairs | src/gr/spinellis/ckjm/ClassVisitor.java:207-220 | the counter is the number of disjoint pairs minus the number of overlapping pairs, and the two numbers add up to m(m-1)/2 |
| Cohesion.PairwiseDisjointLcom | src/gr/spinellis/ckjm/ClassVisitor.java:197-204 | m methods with pairwise disjoint field sets give LCOM = m(m-1)/2 |
| Cohesion.IdenticalFieldSetsLcom | src/gr/spinellis/ckjm/ClassVisitor.java:197-204 | m methods sharing one non-empty field set give a counter of -m(m-1)/2 and LCOM 0 |
| Cohesion.LcomBounds | src/gr/spinellis/ckjm/ClassVisitor.java:197-204 | LCOM never exceeds the number of method pairs, and is 0 for fewer than two methods |
| Effects.Coupled | src/gr/spinellis/ckjm/ClassVisitor.java:111-113 | the gate keeps a name exactly when it is not the class itself and platform classes are included or the name is not one; the class itself never passes |
| Effects.AddToLast | src/gr/spinellis/ckjm/ClassVisitor.java:128 | only the last field set grows, by exactly the given fields; the length and all earlier sets are unchanged |
| Effects.AfterCoupling | src/gr/spinellis/ckjm/ClassVisitor.java:109-117 | if the gate passes, the name joins the efferent set and the class joins the afferent set of the name's record, created if absent; otherwise nothing changes; no other record changes, and responses and field sets never do |
| Effects.Marked | src/gr/spinellis/ckjm/ClassVisitor.java:115 | a record gains exactly the analysed class in its afferent set when it is a coupling target, and is otherwise unchanged |
| Effects.AbsorbRecords | src/gr/spinellis/ckjm/ClassVisitor.java:109-117 | a reference step adds exactly the gate-passing names as keys, and changes each record only by marking it afferent to the class when it is one of those names |
| Effects.CouplingAsAbsorb | src/gr/spinellis/ckjm/ClassVisitor.java:109-117 | registerCoupling is the reference step with one name |
| Effects.AbsorbThen | src/gr/spinellis/ckjm/ClassVisitor.java:109-151 | two steps in turn are one step with the unions: the analyser's effects are set additions |
| Effects.AbsorbStep | src/gr/spinellis/ckjm/ClassVisitor.java:109-129 | every step only grows the sets, never couples the class to itself, records it as afferent of each new coupling, keeps every key, changes other records only by afferent names, leaves the own record alone and touches only the last field set |
| Effects.CouplingsAsAbsorb | src/gr/spinellis/ckjm/ClassVisitor.java:96-97 | coupling a list of names in turn is one step with the set of those names |
| Effects.TypeCouplingsAsAbsorb | src/gr/spinellis/ckjm/MethodVisitor.java:94-96 | coupling a list of types in turn is one step with the set of their class names |
| Effects.AfterFieldAccess | src/gr/spinellis/ckjm/ClassVisitor.java:125-129 | responses and the list length are unchanged, and every set but the last is unchanged; the last set gains the field exactly when the owner is the class itself |
| Effects.FieldAccessAsAbsorb | src/gr/spinellis/ckjm/ClassVisitor.java:125-129 | a field access is one step with the owner as name, and the field as field only for an own field |
| Effects.AfterInvocation | src/gr/spinellis/ckjm/ClassVisitor.java:132-136 | the signature is always added, even when the owner fails the gate; the efferent set gains the owner only if it passes; field sets are unchanged |
| Effects.InvocationAsAbsorb | src/gr/spinellis/ckjm/ClassVisitor.java:132-136 | an invocation is one step with the owner as name and its signature as response |
| Effects.InstructionAsAbsorb | src/gr/spinellis/ckjm/MethodVisitor.java:76-115 | each handler adds exactly its instruction's names, responses and fields. IINC and kinds without a handler add nothing. A field access adds its owner and field type, plus the field for an own field. An invocation adds its argument, return and owner classes and its signature. Every other kind adds its one operand type |
| Effects.IsVisitableInstruction | src/gr/spinellis/ckjm/MethodVisitor.java:67-73 | returns, constant pushes and instructions with no entry in the decoder's table are never accepted, so the scan always dispatches them |
| Effects.CodeAsAbsorb | src/gr/spinellis/ckjm/MethodVisitor.java:59-65 | the scan is one step with the names, responses and fields of exactly the instructions it dispatches |
| Effects.AfterHandler | src/gr/spinellis/ckjm/MethodVisitor.java:123-125 | a catch-all handler changes nothing; a typed one adds its catch class to the efferent set if the gate passes |
| Effects.HandlersAsAbsorb | src/gr/spinellis/ckjm/MethodVisitor.java:118-127 | the handler loop is one step with the set of the catch classes of the typed handlers |
| Effects.AfterBody | src/gr/spinellis/ckjm/MethodVisitor.java:52-57 | an abstract or native method's body scans nothing and changes nothing |
| Effects.BodyStep | src/gr/spinellis/ckjm/MethodVisitor.java:52-57 | a body scan only grows the sets, leaves the class's own record alone and touches only the open method's field set |
| Effects.BodyAsAbsorb | src/gr/spinellis/ckjm/MethodVisitor.java:52-57 | a method body equals one Absorb of its dispatched instructions' names, responses and fields plus its catch types. For an abstract or native method it is the empty Absorb |
| ClassEffects.MethodCouplingsAsAbsorb | src/gr/spinellis/ckjm/ClassVisitor.java:157-166 | the signature couplings are one step with the return, argument and exception classes |
| ClassEffects.OpenMethodEffect | src/gr/spinellis/ckjm/ClassVisitor.java:157-174 | before the body scan the state has grown, the own signature is a response, the own record has one more method (and one more public method for a public one), and exactly one empty field set is appended |
| ClassEffects.MethodEffect | src/gr/spinellis/ckjm/ClassVisitor.java:154-177 | visitMethod grows the state. It couples exactly the names of the method's signature and body that pass the gate, and each of exactly those names gains the class as afferent; no other record but the own one changes, and the keys gained are the own name and those names. It adds exactly its own signature and the signatures its body invokes. It raises WMC by 1, and NPM by 1 iff the method is public. It appends exactly one field set: the fields of this class the body uses, empty for an abstract or native method |
| ClassEffects.MethodRecords | src/gr/spinellis/ckjm/ClassVisitor.java:154-177 | visitMethod's effect on the registry: the keys gained are the own name and the gate-passing names of the method, and every other record gains exactly the class as afferent when it is one of those names and nothing otherwise |
| ClassEffects.MethodsFieldUsage | src/gr/spinellis/ckjm/ClassVisitor.java:174 | the reference field sets of a method list: one per method, in order, the k-th being the own fields the k-th method's body uses |
| ClassEffects.MethodsExact | src/gr/spinellis/ckjm/ClassVisitor.java:103-105 | visiting a list of methods couples exactly their gate-passing names, adds exactly their own and invoked signatures, and appends their field sets in order |
| ClassEffects.MethodsRecords | src/gr/spinellis/ckjm/ClassVisitor.java:103-105 | visiting a list of methods changes every record but the own one only by marking it afferent to the class when it is a gate-passing name of some method, and adds exactly those names (and the own name) as keys |
| ClassEffects.MethodsGrow | src/gr/spinellis/ckjm/ClassVisitor.java:103-105 | visiting n methods grows the state and appends n field sets after the existing ones |
| ClassEffects.MethodsRespond | src/gr/spinellis/ckjm/ClassVisitor.java:103-105 | after the methods are visited, every method's own signature is a response |
| ClassEffects.MethodsCount | src/gr/spinellis/ckjm/ClassVisitor.java:103-105 | visiting the methods raises WMC by their number and NPM by the number of public ones, and changes nothing else in the own record |
| ClassEffects.FieldsAsAbsorb | src/gr/spinellis/ckjm/ClassVisitor.java:99-101 | visiting the fields is one step with the set of their types' class names |
| ClassEffects.EnterClass | src/gr/spinellis/ckjm/ClassVisitor.java:81-91 | the own record is marked visited, public iff it was or the class is, and gets DIT only when the ancestor lookup succeeds; the superclass's record, created if absent, gains one child; nothing else changes |
| ClassEffects.BeforeMethodsAsAbsorb | src/gr/spinellis/ckjm/ClassVisitor.java:92-101 | the class-level couplings are one step with the superclass, the interfaces and the field types |
| ClassEffects.ClassOwnRecord | src/gr/spinellis/ckjm/ClassVisitor.java:77-106 | after visitJavaClass the own record is visited, public iff it was or the class is, and has DIT when resolvable; WMC rises by the method count and NPM by the public count; NOC changes only if the class is its own superclass |
| ClassEffects.ClassOtherRecords | src/gr/spinellis/ckjm/ClassVisitor.java:77-106 | after visitJavaClass every record but the own one is its old value with one more child exactly for the superclass, and with the class added as afferent exactly when it is one of the class's gate-passing names; the keys gained are exactly the own name, the superclass and those names |
| ClassEffects.ClassSets | src/gr/spinellis/ckjm/ClassVisitor.java:77-106 | after visitJavaClass the efferent set is exactly the old set plus the gate-passing names of the class level and of every method. The response set is exactly the old set plus the methods' own and invoked signatures. The field-usage list is the old list followed by one set per method |
| ClassEffects.ClassTransients | src/gr/spinellis/ckjm/ClassVisitor.java:77-106 | after visitJavaClass the efferent set has gained exactly the gate-passing names of the class level and of every method. The response set has gained exactly the methods' own and invoked signatures. One field set per method is appended in order, each holding the own fields that method's body uses. The class never couples to itself, and each new coupling records the class as afferent |
| ClassEffects.AfterEnd | src/gr/spinellis/ckjm/ClassVisitor.java:194-205 | the final accounting sets the own record's CBO to the efferent set's size, RFC to the response set's size and LCOM to the floored pair counter over the field sets. Nothing else in that record changes, and the sets and every other record are left unchanged |
| EffectLaws.CouplingIdempotent | src/gr/spinellis/ckjm/ClassVisitor.java:114-115 | registering the same coupling twice has the effect of registering it once |
| EffectLaws.HandlersOrderIrrelevant | src/gr/spinellis/ckjm/ExceptionHandler.java:24-29 | the handler loop's result does not depend on the order of the handlers |
| EffectLaws.RepeatedCatchAddsNothing | src/gr/spinellis/ckjm/ExceptionHandler.java:24-29 | a repeated handler adds nothing further |
| EffectLaws.HandlersRegisterEveryCatchType | src/gr/spinellis/ckjm/ExceptionHandler.java:24-28 | every typed handler whose class passes the gate ends with that class coupled and the analysed class in its afferent set |
| EffectLaws.DispatchedContributes | src/gr/spinellis/ckjm/MethodVisitor.java:59-65 | every dispatched instruction's names, responses and fields are among those of the whole scan |
| EffectLaws.ScanRecordsDispatched | src/gr/spinellis/ckjm/MethodVisitor.java:59-65 | after the scan, each dispatched instruction's responses are present, its gate-passing names are coupled, and its own fields are in the open method's set, which keeps its position |
| EffectLaws.ByNameScanMissesOperands | src/gr/spinellis/ckjm/MethodVisitor.java:62-73 | with the opposite guard, and a table with no entry for instructions that carry operands, the scan never changes the response set or the field sets |
| EffectLaws.ScanRespondsToCalls | src/gr/spinellis/ckjm/MethodVisitor.java:93-100 | an invocation without a table entry is always dispatched, so its signature becomes a response |
| EffectLaws.ScanCouplesReturnTypes | src/gr/spinellis/ckjm/MethodVisitor.java:113-115 | a return instruction is always dispatched, so its type's class is coupled when the gate passes |
| Visitors.ClassVisitor.constructor | src/gr/spinellis/ckjm/ClassVisitor.java:61-67 | empty transient sets, and the own record looked up (created if new) |
| Visitors.ClassVisitor.Start | src/gr/spinellis/ckjm/ClassVisitor.java:72-74 | the new state is the class visit of the analysed class |
| Visitors.ClassVisitor.VisitJavaClass | src/gr/spinellis/ckjm/ClassVisitor.java:77-106 | the loops over interfaces, fields and methods leave exactly the state of the class visit |
| Visitors.ClassVisitor.EnterClassRecords | src/gr/spinellis/ckjm/ClassVisitor.java:81-91 | the registry writes leave exactly the class-level bookkeeping |
| Visitors.ClassVisitor.RegisterCoupling | src/gr/spinellis/ckjm/ClassVisitor.java:109-117 | the new state is the gated coupling: efferent set and target record updated together, or nothing |
| Visitors.ClassVisitor.RegisterTypeCoupling | src/gr/spinellis/ckjm/ClassVisitor.java:120-122 | coupling a type is coupling its class name |
| Visitors.ClassVisitor.RegisterFieldAccess | src/gr/spinellis/ckjm/ClassVisitor.java:125-129 | the new state is the field access; a field set must exist when the owner is the class itself |
| Visitors.ClassVisitor.RegisterMethodInvocation | src/gr/spinellis/ckjm/ClassVisitor.java:132-136 | the new state is the invocation |
| Visitors.ClassVisitor.VisitField | src/gr/spinellis/ckjm/ClassVisitor.java:139-141 | a field couples to its type's class name |
| Visitors.ClassVisitor.IncrementRFC | src/gr/spinellis/ckjm/ClassVisitor.java:145-151 | the response set gains exactly the signature; the other sets are unchanged |
| Visitors.ClassVisitor.VisitMethod | src/gr/spinellis/ckjm/ClassVisitor.java:154-177 | the new state is the method visit, including the body scan by a fresh method analyser |
| Visitors.ClassVisitor.RegisterSignatureCouplings | src/gr/spinellis/ckjm/ClassVisitor.java:157-166 | the three coupling loops leave exactly the signature couplings |
| Visitors.ClassVisitor.CountMethodOnRecord | src/gr/spinellis/ckjm/ClassVisitor.java:171-173 | the own record gains one method, and one public method for a public one; nothing else changes |
| Visitors.ClassVisitor.End | src/gr/spinellis/ckjm/ClassVisitor.java:194-205 | the own record gets CBO, RFC and the floored LCOM; nothing else changes |
| Visitors.ClassVisitor.CalculateLcom | src/gr/spinellis/ckjm/ClassVisitor.java:207-220 | the nested loops return the number of disjoint pairs minus the number of overlapping pairs |
| Visitors.MethodVisitor.constructor | src/gr/spinellis/ckjm/MethodVisitor.java:44-49 | keeps the method and the class analyser |
| Visitors.MethodVisitor.Start | src/gr/spinellis/ckjm/MethodVisitor.java:52-57 | the new state is the body scan, which is nothing for an abstract or native method |
| Visitors.MethodVisitor.VisitInstructions | src/gr/spinellis/ckjm/MethodVisitor.java:59-65 | the loop in program order leaves exactly the scan's state, with the number of field sets unchanged |
| Visitors.MethodVisitor.VisitInstruction | src/gr/spinellis/ckjm/MethodVisitor.java:63 | dispatch by kind gives the kind's handler effect, and nothing for kinds without a handler |
| Visitors.MethodVisitor.VisitLocalVariableInstruction | src/gr/spinellis/ckjm/MethodVisitor.java:76-79 | IINC registers nothing; any other local-variable instruction couples to its type |
| Visitors.MethodVisitor.VisitArrayInstruction | src/gr/spinellis/ckjm/MethodVisitor.java:82-84 | couples to the element type |
| Visitors.MethodVisitor.VisitFieldInstruction | src/gr/spinellis/ckjm/MethodVisitor.java:87-90 | records the field access for its owner, then couples to the field type |
| Visitors.MethodVisitor.VisitInvokeInstruction | src/gr/spinellis/ckjm/MethodVisitor.java:93-100 | couples to each argument type and the return type, then records the invocation |
| Visitors.MethodVisitor.VisitInstanceOf | src/gr/spinellis/ckjm/MethodVisitor.java:103-105 | couples to the tested type |
| Visitors.MethodVisitor.VisitCheckCast | src/gr/spinellis/ckjm/MethodVisitor.java:108-110 | couples to the cast type |
| Visitors.MethodVisitor.VisitReturnInstruction | src/gr/spinellis/ckjm/MethodVisitor.java:113-115 | couples to the returned type |
| Visitors.MethodVisitor.UpdateExceptionHandlers | src/gr/spinellis/ckjm/MethodVisitor.java:118-127 | the loop leaves exactly the handler loop's state: typed handlers coupled, catch-all handlers skipped |
| InstructionVisitors.InstructionVisitor.constructor | src/gr/spinellis/ckjm/InstructionVisitor.java:15-18 | keeps the class analyser |
| InstructionVisitors.InstructionVisitor.VisitLocalVariableInstruction | src/gr/spinellis/ckjm/InstructionVisitor.java:21-24 | same effect as the method analyser's handler: IINC registers nothing, otherwise the variable's type |
| InstructionVisitors.InstructionVisitor.VisitArrayInstruction | src/gr/spinellis/ckjm/InstructionVisitor.java:27-29 | same effect as the method analyser's handler: one coupling, to the element type |
| InstructionVisitors.InstructionVisitor.VisitFieldInstruction | src/gr/spinellis/ckjm/InstructionVisitor.java:32-35 | same effect as the method analyser's handler: field access recorded, then the field type coupled |
| InstructionVisitors.InstructionVisitor.VisitInvokeInstruction | src/gr/spinellis/ckjm/InstructionVisitor.java:38-44 | same effect as the method analyser's handler: argument and return types coupled, then the invocation added |
| InstructionVisitors.InstructionVisitor.VisitInstanceOf | src/gr/spinellis/ckjm/InstructionVisitor.java:47-49 | same effect as the method analyser's handler: one coupling, to the tested type |
| InstructionVisitors.InstructionVisitor.VisitCheckCast | src/gr/spinellis/ckjm/InstructionVisitor.java:52-54 | same effect as the method analyser's handler: one coupling, to the cast type |
| InstructionVisitors.InstructionVisitor.VisitReturnInstruction | src/gr/spinellis/ckjm/InstructionVisitor.java:57-59 | same effect as the method analyser's handler: one coupling, to the returned type |
| ExceptionHandlers.ExceptionHandler.constructor | src/gr/spinellis/ckjm/ExceptionHandler.java:18-21 | keeps the class analyser |
| ExceptionHandlers.ExceptionHandler.UpdateHandlers | src/gr/spinellis/ckjm/ExceptionHandler.java:23-30 | same effect as the method analyser's handler loop on the same list; an empty list changes nothing |
| Analysis.RunClassAnalysis | src/gr/spinellis/ckjm/ClassVisitor.java:61-74 | a fresh analyser, its start and its end leave the registry of one class analysis |
| Analysis.OwnCountsAfterAnalysis | src/gr/spinellis/ckjm/ClassVisitor.java:77-106 | after a class analysis the own record is visited, public iff it was or the class is, and has DIT when resolvable (unchanged otherwise). WMC and NPM rise by the method and public-method counts, the afferent set is unchanged, and NOC changes only for a class that is its own superclass |
| Analysis.OwnMeasuresAfterAnalysis | src/gr/spinellis/ckjm/ClassVisitor.java:194-205 | after one analysis, CBO is the number of distinct gate-passing class names referred to at class level, in method signatures, in dispatched instructions and in catch types, never counting the class itself. RFC is the number of distinct signatures of its own methods and the methods they invoke. LCOM is the floored pair counter over the methods' own-field sets, in method order |
| Analysis.VisitedSets | src/gr/spinellis/ckjm/ClassVisitor.java:77-106 | just before end, the analyser's efferent set, response set and field sets are exactly those determined by the class, and every own method's signature is a response |
| Analysis.LcomAfterAnalysis | src/gr/spinellis/ckjm/ClassVisitor.java:194-220 | after one analysis, LCOM is at most the number of method pairs, and 0 for at most one method |
| Analysis.NoOwnFieldsLcom | src/gr/spinellis/ckjm/ClassVisitor.java:207-220 | a class none of whose methods uses one of its own fields gets LCOM = m(m-1)/2 |
| Analysis.SharedFieldsLcom | src/gr/spinellis/ckjm/ClassVisitor.java:207-220 | a class all of whose methods use the same non-empty set of its own fields gets LCOM = 0 |
| Analysis.OtherRecordsAfterAnalysis | src/gr/spinellis/ckjm/ClassVisitor.java:84-117 | after one analysis every other record is its old value with one more child exactly for the superclass, and with the analysed class added as afferent exactly when it is one of the names counted by its CBO; the keys gained are exactly the own name, the superclass and those names |
| Analysis.NocStep | src/gr/spinellis/ckjm/ClassVisitor.java:84-86 | one class analysis adds one child to its superclass's record and to no other |
| Analysis.NocAfterAll | src/gr/spinellis/ckjm/ClassVisitor.java:84-86 | after a run every record's NOC has grown by the number of analysed classes naming it as superclass |
| Analysis.SubclassesPermutation | src/gr/spinellis/ckjm/ClassVisitor.java:84-86 | the number of subclasses does not depend on the order of the classes |
| Analysis.NocOrderIrrelevant | src/gr/spinellis/ckjm/ClassVisitor.java:84-86 | NOC accumulates the same whatever the order in which classes are analysed |
| Analysis.WmcAfterAll | src/gr/spinellis/ckjm/ClassVisitor.java:171 | after a run every record's WMC has grown by the number of methods visited for that class |
| Analysis.VisitedStep | src/gr/spinellis/ckjm/ClassVisitor.java:81 | a class analysis marks its own record visited and no other |
| Analysis.VisitedAfterAll | src/gr/spinellis/ckjm/ClassVisitor.java:81 | after a run a record is visited exactly when it was before or an analysed class has its name |
| Analysis.ReferencedOnlyNotReported | src/gr/spinellis/ckjm/ClassMetricsContainer.java:46 | a class that was only coupled to or extended, never analysed, is never selected for reporting, whatever its afferent set or NOC |

## Left out

- Decoding class files is left out. The decoder's class, method and constant-pool objects
  become the datatypes of `Bytecode`, with operands already resolved, so the constant pool
  and `MethodGen` are not modelled.
- The visitor double dispatch (`accept`) becomes a `match` over instruction kinds.
- The decoder's type rendering (`Type.toString`) is written out for the types modelled
  here.
- The decoder's instruction table is an uninterpreted predicate on opcodes
  (`Environment.inInstructionTable`).
- The platform-class test and the include-platform-classes flag are parameters of a run
  (`Environment`). Their definitions are not part of this model.
- The include-all flag of the reporting selection is a parameter of
  `ClassMetricsContainer.PrintMetrics`.
- The ancestor walk behind DIT consults the decoder's class repository. The decoded class
  carries its result as `superclassCount: Option<nat>`, where `None` stands for the lookup
  failure that leaves DIT unchanged.
- The diagnostic printed when the ancestor lookup fails is I/O and is not modelled.
- `PrintMetrics` returns the selected entries rather than passing them to an output
  handler. Output formatting is not modelled, and neither is the hash map's iteration order.
- The analyser's reference to its own record is modelled as a lookup by name followed by a
  write-back. The registry maps each name to one record, so updates made through other
  classes' analyses land in the same entry.
- `getMetrics()` on the class analyser only exposes that reference, and the method
  analyser stores it without using it. It has no separate member here.
- Counts are unbounded integers. Java's 32-bit `int` overflow of the LCOM counter and of
  the other counts is not modelled.
- The method analyser's instruction loop is corrupt in the source: it has no loop header
  and uses an undeclared handle. It is modelled as a loop over the method's instructions
  in program order. A stray token in the field declarations of `ClassVisitor.java` is
  ignored.
- `DummyClass.java` is a sample input for the tool and has no logic to model.
- Effects.AfterFieldAccess: when the class accesses one of its own fields while no method
  field set is open, the model leaves the field sets unchanged, where Java would throw an
  index-out-of-bounds exception. This cannot arise in the engine: every field access comes
  from a method body, after `visitMethod` has appended that method's set, and the
  imperative `ClassVisitor.RegisterFieldAccess` requires an open set for an own field.
