# Verify request model

A Dafny model of the request data model of the Nexmo Java client's Verify API:
the shared `BaseRequest` fields, the standard `VerifyRequest` with its
constructor chain, the PSD2 payment-confirmation `Psd2Request`, and the
`LineType` and `Workflow` enumerations whose integer ids go on the wire.

Each Java object is an immutable datatype; each constructor and setter is a
pure function returning the new object. Java `null` is `Option.None` for every
reference (strings, `Integer`, `Locale`, `Double`, enum values), since the
source checks none of them. Java `int` is the newtype `JavaLang.Int32`.

Setter calls are also reified as a `Mutation` datatype per class, so that
`ApplyAll` can run any history of setter calls. This states the class
invariants over the whole life of a request object: `number`, `brand`,
`amount` and `payee` are fixed, and the base class's private `from` stays `null`.

Two functions have no counterpart in the source. The id decoder `Verify.WorkflowFromId` and the name matchings `Psd2.SameNamedVerifyWorkflow` / `Psd2.SameNamedPsd2Workflow` are reference definitions, used to state that the id encoding is injective and that the two workflow enumerations agree.

Modules:
- `Wrappers`: `Option`.
- `JavaLang`: `Int32`, `Locale` (known only by its language tag), ASCII `toLowerCase`.
- `Base`: `BaseRequest.java`.
- `Verify`: `VerifyRequest.java`, with `LineType` and `Workflow`.
- `Psd2`: `Psd2Request.java`, with its own `Workflow`.

Three facts about the classes shape the model:
- `VerifyRequest` has four constructors, each delegating to the most general one.
- The `VerifyRequest` constructors always store a non-null length, `-1` from the two shortest. `Psd2Request` stores a `null` length. Both conventions are kept as written.
- `VerifyRequest` declares its own `from` field, which shadows the base class's `from`. `setFrom` writes the subclass field, and the base field is never written.

## Model

| member | source | states |
|---|---|---|
| JavaLang.ToLowerCase | src/main/java/com/nexmo/client/verify/BaseRequest.java:92 | lower-casing keeps the length, maps each character through ASCII lower-casing, leaves no upper-case letter, and equals the input up to case |
| JavaLang.ToLowerCaseIdempotent | src/main/java/com/nexmo/client/verify/BaseRequest.java:92 | lower-casing twice is the same as lower-casing once |
| JavaLang.ToLowerCaseFixesExactlyLowerCase | src/main/java/com/nexmo/client/verify/BaseRequest.java:92 | lower-casing leaves a string unchanged if and only if it has no upper-case letter |
| Base.New | src/main/java/com/nexmo/client/verify/BaseRequest.java:42-49 | the constructor keeps number, length and locale as given; country, PIN expiry, next-event wait and the base `from` start unset |
| Base.SetLength | src/main/java/com/nexmo/client/verify/BaseRequest.java:67-69 | the length afterwards is the argument and every other field is unchanged |
| Base.SetLocale | src/main/java/com/nexmo/client/verify/BaseRequest.java:80-82 | the locale afterwards is the argument and every other field is unchanged |
| Base.SetCountry | src/main/java/com/nexmo/client/verify/BaseRequest.java:114-116 | the country afterwards is the argument and every other field is unchanged |
| Base.SetPinExpiry | src/main/java/com/nexmo/client/verify/BaseRequest.java:132-134 | the PIN expiry afterwards is the argument and every other field is unchanged |
| Base.SetNextEventWait | src/main/java/com/nexmo/client/verify/BaseRequest.java:150-152 | the next-event wait afterwards is the argument and every other field is unchanged |
| Base.GetDashedLocale | src/main/java/com/nexmo/client/verify/BaseRequest.java:90-95 | the result is null exactly when no locale is set; otherwise it has no upper-case letter and equals the locale's language tag up to case |
| Base.DashedLocaleIsLowerCase | src/main/java/com/nexmo/client/verify/BaseRequest.java:91-92 | when a locale is set, lower-casing the dashed locale again changes nothing |
| Base.DashedLocaleFollowsSetLocale | src/main/java/com/nexmo/client/verify/BaseRequest.java:80-95 | after `setLocale(l)` the dashed locale is null exactly when `l` is, is the lower-cased tag of `l` otherwise, and depends on nothing but the locale |
| Base.Apply | src/main/java/com/nexmo/client/verify/BaseRequest.java:67-152 | any one setter call writes its argument into the field it targets, keeps every other field, and never changes `number` or `from` |
| Base.ApplyWritesArgument | src/main/java/com/nexmo/client/verify/BaseRequest.java:67-152 | after a setter call the field it targets holds that call's argument, whatever the request held before |
| Base.ApplyAll | src/main/java/com/nexmo/client/verify/BaseRequest.java:34-35 | `number` (a final field) and the private `from` are the same after any sequence of setter calls |
| Base.ApplyAllAppend | src/main/java/com/nexmo/client/verify/BaseRequest.java:67-152 | running two histories of setter calls in turn is running their concatenation |
| Base.UntouchedFieldKept | src/main/java/com/nexmo/client/verify/BaseRequest.java:67-152 | a field that no call in a history of setter calls targets keeps its value |
| Base.LastWriteWins | src/main/java/com/nexmo/client/verify/BaseRequest.java:63-152 | after any history of setter calls, a field holds the argument of the last call to its setter |
| Base.NumberFixedAndFromNeverSet | src/main/java/com/nexmo/client/verify/BaseRequest.java:34-49 | a constructed request keeps its number, and its base `from` stays null, through any setter calls |
| Verify.LineTypesExhaustive | src/main/java/com/nexmo/client/verify/VerifyRequest.java:152-154 | `LineType` has exactly three distinct constants, ALL, MOBILE and LANDLINE |
| Verify.WorkflowId | src/main/java/com/nexmo/client/verify/VerifyRequest.java:183-200 | every workflow id lies in 1..7 |
| Verify.WorkflowFromId | src/main/java/com/nexmo/client/verify/VerifyRequest.java:183-200 | an id decodes to a workflow exactly when it lies in 1..7, and then to the workflow with that id |
| Verify.WorkflowIdRoundTrip | src/main/java/com/nexmo/client/verify/VerifyRequest.java:183-200 | decoding the id of a workflow gives the workflow back |
| Verify.WorkflowIdInjective | src/main/java/com/nexmo/client/verify/VerifyRequest.java:183-200 | two workflows have the same id if and only if they are the same workflow |
| Verify.WorkflowIdsFollowDeclarationOrder | src/main/java/com/nexmo/client/verify/VerifyRequest.java:183-189 | the ids number the seven constants 1 to 7 in declaration order, SMS_TTS_TTS=1 to TTS=7, and there are no others |
| Verify.MakeTyped | src/main/java/com/nexmo/client/verify/VerifyRequest.java:100-110 | the general constructor keeps number, brand, sender, length, locale and line type as given, and leaves workflow, country, PIN expiry, next-event wait and the base `from` unset |
| Verify.MakeLocalized | src/main/java/com/nexmo/client/verify/VerifyRequest.java:79-81 | the five-argument constructor keeps its arguments and leaves line type, workflow, country, PIN expiry, next-event wait and the base `from` unset |
| Verify.MakeFrom | src/main/java/com/nexmo/client/verify/VerifyRequest.java:61-63 | the three-argument constructor keeps its arguments, sets length -1, and leaves locale, line type, workflow, country, PIN expiry, next-event wait and the base `from` unset |
| Verify.Make | src/main/java/com/nexmo/client/verify/VerifyRequest.java:47-49 | the two-argument constructor keeps number and brand, sets length -1, and leaves sender, locale, line type, workflow, country, PIN expiry, next-event wait and the base `from` unset |
| Verify.ShortConstructorsAgree | src/main/java/com/nexmo/client/verify/VerifyRequest.java:47-81 | each shorter constructor equals the general one with null for the omitted arguments and -1 for the length |
| Verify.SetType | src/main/java/com/nexmo/client/verify/VerifyRequest.java:129-131 | the line type afterwards is the argument; the base part and every other field are unchanged |
| Verify.SetFrom | src/main/java/com/nexmo/client/verify/VerifyRequest.java:144-146 | the subclass sender afterwards is the argument; the base part, including the base `from`, and every other field are unchanged |
| Verify.SetWorkflow | src/main/java/com/nexmo/client/verify/VerifyRequest.java:170-172 | the workflow afterwards is the argument; the base part and every other field are unchanged |
| Verify.Apply | src/main/java/com/nexmo/client/verify/VerifyRequest.java:115-172 | an inherited setter changes only the base part; `setType`, `setFrom` and `setWorkflow` each write their argument into their own field and keep the base part and the other fields; no setter changes number, brand or the base `from` |
| Verify.ApplyAll | src/main/java/com/nexmo/client/verify/VerifyRequest.java:33-117 | number, brand and the base `from` are the same after any sequence of setter calls |
| Verify.ConstructedRequestInvariant | src/main/java/com/nexmo/client/verify/VerifyRequest.java:100-117 | a constructed request keeps its number and brand, and its base `from` stays null, through any setter calls |
| Psd2.WorkflowId | src/main/java/com/nexmo/client/verify/Psd2Request.java:103-120 | every PSD2 workflow id lies in 1..7 |
| Psd2.WorkflowIdsMatchVerify | src/main/java/com/nexmo/client/verify/Psd2Request.java:103-109 | matching constants by name is a bijection between the two workflow enumerations, and same-named constants have the same id |
| Psd2.WorkflowIdsInjectiveAndOnto | src/main/java/com/nexmo/client/verify/Psd2Request.java:103-120 | distinct PSD2 workflows have distinct ids, and every id in 1..7 is some PSD2 workflow's id |
| Psd2.Make | src/main/java/com/nexmo/client/verify/Psd2Request.java:39-43 | the three-argument constructor keeps number, amount and payee; length and locale are null (not -1); workflow, country, PIN expiry, next-event wait and the base `from` are unset |
| Psd2.SetWorkflow | src/main/java/com/nexmo/client/verify/Psd2Request.java:90-92 | the workflow afterwards is the argument; the base part, amount and payee are unchanged |
| Psd2.MakeWithWorkflow | src/main/java/com/nexmo/client/verify/Psd2Request.java:57-60 | the four-argument constructor keeps its arguments and has the same base part as the three-argument one |
| Psd2.ConstructorsDifferOnlyInWorkflow | src/main/java/com/nexmo/client/verify/Psd2Request.java:57-60 | the four-argument constructor differs from the three-argument one in the workflow alone, and equals it when the workflow is null |
| Psd2.Apply | src/main/java/com/nexmo/client/verify/Psd2Request.java:65-92 | an inherited setter changes only the base part, `setWorkflow` only the workflow, and neither changes amount or payee |
| Psd2.ApplyAll | src/main/java/com/nexmo/client/verify/Psd2Request.java:28-29 | number, amount, payee and the base `from` are the same after any sequence of setter calls |
| Psd2.ConstructedRequestInvariant | src/main/java/com/nexmo/client/verify/Psd2Request.java:39-74 | a constructed request keeps its number, amount and payee, and its base `from` stays null, through any setter calls |
| Psd2.OptionalParametersScenario | src/test/java/com/nexmo/client/verify/VerifyClientPsd2EndpointTest.java:46-48 | building for 447700900999, 10.31, "Ebony" with workflow SMS and then setting length 4 gives length 4, leaves number, amount, payee and workflow as built, and the workflow's id is 6 |

## Left out

- `VerifyClient` and `Psd2Endpoint`: they only forward to endpoint objects and an HTTP wrapper whose code is not part of this model; the HTTP exchange and the parsed response (status, request id) are not modelled.
- Wire serialization: the parameter names and the omission of unset fields live in method classes that are not part of this model. Only the workflow id, the value sent for a workflow, is modelled.
- `toString()` of the three classes: debug text with no contract.
- JavaLang.ToLowerCase: lower-cases ASCII letters only; Java's `String.toLowerCase()` follows the default locale and the full Unicode case mapping.
- `Locale`: modelled only by the language tag that `toLanguageTag()` returns; how Java builds that tag is not modelled.
- `amount`: a Java `Double` modelled as a `real`, since it is only stored and returned; floating-point behaviour is not modelled.
- Ranges documented but never checked in the code (code length 4 or 6, brand up to 18 characters, sender id up to 11, next-event wait 60 to 900 seconds) are not modelled, as the code does not enforce them.
