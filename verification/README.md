# OpenConKit, modelled and proved in Dafny

OpenConKit is a desktop application that inspects bills of quantities in
spreadsheets. This project models its deterministic engines in Dafny and proves
what they keep over all inputs and all runs. Each engine has its own files:

- **Cell addresses** (`A1Codec.dfy`, `CellRanges.dfy`): the address printers and
  parsers of the reader, the formulas, the detection and the findings, as one
  bijection.
- **Formulas** (`FormulaGrammar.dfy`, `FormulaLexer.dfy`,
  `FormulaEvaluator.dfy`, `FormulaTexts.dfy`): a lexer, a recursive-descent parser
  that evaluates while it parses, and `SUM` over a rectangle. Trees give texts their meaning;
  the parser object is proved against functions on the unread tokens. The
  grammar is the arithmetic part of section 18.17 of ECMA-376 Part 1. Decimals
  are a parameter, so the theorems hold for every rounding and overflow
  behaviour; an unchecked addition that overflows is an outcome of its own.
- **The Codex transport** (`JsonRpc.dfy`, `TransportProtocol.dfy`,
  `TransportClient.dfy`, `TransportReader.dfy`): requests, timeouts, the reader
  and shutdown as interleaved steps on one shared table, the shared object whose
  methods are those steps, and the line framer over arbitrary reads.
- **AI plans** (`AiChunks.dfy`, `AiReview.dfy`, `AiPlan.dfy`, `AiPrompts.dfy`):
  greedy chunking under a byte budget, grounding validation, and the loop of paid
  model turns that reduces many fragments to one review. Sizes are the lengths of
  the prompts as texts: fixed text, items, commas, brackets and decimal digits.
- **Numbers** (`Normalization.dfy`, `NumberReadings.dfy`): separator
  disambiguation as a parser that undoes a grouped-number printer in two
  conventions, the value that is read, and the marks that come off.
- **Tables** (`Segmentation.dfy`, `SheetCells.dfy`, `ColumnInference.dfy`,
  `SectionPaths.dfy`, `Detection.dfy`): row segmentation, the header search,
  column inference, section paths rebuilt in place, and the detection loop over
  them. Ratios and scores are exact fractions.
- **The protocol log** (`LogRotation.dfy`): four files as a window on the history
  of writes, under failures of any file operation.
- **Persistence** (`RunStore.dfy`, `RunExecutions.dfy`, `SourceVault.dfy`,
  `SettingsFiles.dfy`): run aggregates as transactions on tables, tool executions
  interleaved over them, source imports with compensation, and a two-file settings
  save with rollback, crash and reconciliation.

`Wrappers.dfy` and `Text.dfy` hold option and result types, character classes,
trimming and decimal numerals. Code that updates state is written as methods and
classes proved against functions or relations; what those promise is proved
about the functions as lemmas. Clocks, model answers, file failures, hashing and
random ids are parameters over which every statement quantifies.

Results that differ from what one might expect of the code are stated with their
exact condition: nonzero numbers below one thousand with three fraction digits are
read as a thousand times their value, amounts marked EGP, EUR or AED in front are
not read at all, column roles can repeat under a priced header, request ids repeat
after 2^64 requests, a completed run is set back by an execution that checked its
id before and took it after the completing one, and a run stays running when its
closing save is refused, which finding ids can cause.

Verify everything with `dafny verify dfyconfig.toml`.

## Model

| member | source | states |
|---|---|---|
| A1Codec.LettersRoundTrip | crates/openconkit-spreadsheet/src/reader.rs:602-611 | reading printed column letters back gives the column number, for every number |
| A1Codec.LettersOfValue | crates/openconkit-spreadsheet/src/reader.rs:602-611 | and every nonempty word of capital letters is the print of exactly one number: the letters are a bijection |
| A1Codec.CellAddress | crates/openconkit-spreadsheet/src/reader.rs:602-613 | the digit loop prints the address every law below is about, for all 32-bit rows and columns |
| A1Codec.ColumnLetter | crates/openconkit-tool-boq-inspector/src/detection.rs:845-855 | the detection printer prints the same letters as the reader's |
| A1Codec.ParseCellRef | crates/openconkit-tool-boq-inspector/src/formula.rs:279-302 | the formula parser is the address reader the laws below are about, with 32-bit overflow checks that never change its answer |
| A1Codec.ExcelCoordinates | crates/openconkit-domain/src/finding.rs:145-157 | the findings' letter fold and bounds check, one-based |
| A1Codec.PrintingIsInjective | crates/openconkit-spreadsheet/src/reader.rs:602-613 | no two cells have the same address, without any bound on the coordinates |
| A1Codec.ParseUndoesPrint | crates/openconkit-tool-boq-inspector/src/formula.rs:279-302 | a printed address in any mixture of cases and with any dollar signs parses to its own cell, and parses at all if and only if the cell is inside the worksheet |
| A1Codec.PrintUndoesParse | crates/openconkit-tool-boq-inspector/src/formula.rs:279-302 | conversely any text that parses is, up to blanks, dollars, case and leading zeros of the row, the print of its cell |
| A1Codec.ParsersAgree | crates/openconkit-domain/src/finding.rs:98-118 | the findings' parser and the formula parser accept the same plain texts up to seven row digits, and name the same cell |
| A1Codec.FindingRefsArePlain | crates/openconkit-domain/src/finding.rs:98-118 | a findings reference never carries blanks or dollar signs |
| A1Codec.ThreeLettersSuffice | crates/openconkit-spreadsheet/src/reader.rs:602-611 | three letters are enough for every worksheet column |
| CellRanges.RangesReadBack | crates/openconkit-domain/src/finding.rs:211-227 | parsing a printed range gives the range back |
| CellRanges.ParsingNormalises | crates/openconkit-domain/src/finding.rs:211-220 | a parsed range is ordered and prints as the text in capitals |
| CellRanges.RangeParsersAgree | crates/openconkit-tool-boq-inspector/src/formula.rs:69-82 | a text the findings accept as a range is the same rectangle to `SUM` |
| FormulaGrammar.DerivationsGiveTheOutcome | crates/openconkit-tool-boq-inspector/src/formula.rs:131-195 | parsing the tokens of any tree of the grammar gives the tree's value, or its first failure from left to right |
| FormulaGrammar.AcceptedIffDerivable | crates/openconkit-tool-boq-inspector/src/formula.rs:131-195 | a token list has a value if and only if it is derivable from the grammar with exactly that value: precedence, left associativity, sign chains, parentheses |
| FormulaGrammar.BracketFits | crates/openconkit-tool-boq-inspector/src/formula.rs:131-195 | writing a tree with brackets where the grammar needs them always gives a tree of the grammar with the same value |
| FormulaGrammar.BracketIsMinimal | crates/openconkit-tool-boq-inspector/src/formula.rs:131-195 | no spelling of the same tree that fits the grammar has fewer brackets |
| FormulaGrammar.MinimalFormKeepsMeaning | crates/openconkit-tool-boq-inspector/src/formula.rs:131-195 | the minimally bracketed tokens of any arithmetic tree evaluate to the tree's value or its first failure |
| FormulaLexer.ScanToken | crates/openconkit-tool-boq-inspector/src/formula.rs:213-275 | one step of the lexer: the token, the blank or the error at a position, and where it ends |
| FormulaLexer.Tokenize | crates/openconkit-tool-boq-inspector/src/formula.rs:210-277 | the scanning loop collects the longest tokens up to the first error, and keeps them with that error |
| FormulaLexer.LexedTextIsSpelled | crates/openconkit-tool-boq-inspector/src/formula.rs:210-277 | a text that lexes without error is the concatenation of spellings of its tokens and of blanks, nothing else |
| FormulaLexer.LexUndoesPrint | crates/openconkit-tool-boq-inspector/src/formula.rs:210-277 | lexing the printed form of a tree gives exactly its tokens, whatever follows |
| FormulaEvaluator.Parser.ParseExpression | crates/openconkit-tool-boq-inspector/src/formula.rs:131-149 | the sum loop, against the grammar function on the unread tokens, which strictly decrease |
| FormulaEvaluator.Parser.ParseTerm | crates/openconkit-tool-boq-inspector/src/formula.rs:151-172 | the product loop, with overflow and division by zero |
| FormulaEvaluator.Parser.ParseFactor | crates/openconkit-tool-boq-inspector/src/formula.rs:174-195 | operands, sign chains, cells and parentheses |
| FormulaEvaluator.PrintedFormulaKeepsMeaning | crates/openconkit-tool-boq-inspector/src/formula.rs:19-51 | evaluating the printed text of any arithmetic tree over literals and cells gives the tree's value or first failure on that sheet |
| FormulaEvaluator.FormulaValueIffDerivable | crates/openconkit-tool-boq-inspector/src/formula.rs:19-51 | conversely a formula text has a value if and only if its tokens are derivable with that value |
| FormulaEvaluator.SumRegion | crates/openconkit-tool-boq-inspector/src/formula.rs:87-95 | the dense double loop, against the row-by-row sum |
| FormulaEvaluator.DenseSumIsSparseSum | crates/openconkit-tool-boq-inspector/src/formula.rs:87-95 | the dense loop adds exactly the numeric cells inside the rectangle, each once, in row order |
| FormulaEvaluator.EvaluateSum | crates/openconkit-tool-boq-inspector/src/formula.rs:61-95 | the argument checks of `SUM` in order, then the rectangle |
| FormulaEvaluator.PrintedSum | crates/openconkit-tool-boq-inspector/src/formula.rs:31-95 | the text `=SUM(...)` over a printed rectangle is refused exactly when the formula's own cell is inside, and otherwise is the sum of the numeric cells inside, each once, in row order |
| FormulaEvaluator.Evaluate | crates/openconkit-tool-boq-inspector/src/formula.rs:19-51 | the entry point dispatches blank, `SUM` and arithmetic formulas |
| FormulaEvaluator.OwnCellIsIrrelevant | crates/openconkit-tool-boq-inspector/src/formula.rs:31-36 | no formula's result depends on the cached value of its own cell |
| FormulaTexts.NamedCellHasItsValue | crates/openconkit-tool-boq-inspector/src/formula.rs:19-60 | the formula that names a cell has the value of the last readable cell there - an integer's or a number text's - and is refused if and only if there is none or the cell is its own |
| FormulaTexts.NamedCellOnce | crates/openconkit-tool-boq-inspector/src/formula.rs:19-60 | on a sheet without repeated positions that is the cell's own integer or number text |
| FormulaTexts.LiteralIsRead | crates/openconkit-tool-boq-inspector/src/formula.rs:213-235 | a formula of digits and points has the value its text reads as, and is an invalid literal otherwise |
| FormulaTexts.OperationsCompute | crates/openconkit-tool-boq-inspector/src/formula.rs:131-172 | plus, minus, times and divide between two named cells are the decimal operations on their values, with their overflows and division by zero |
| FormulaTexts.MinusSubtractsFromZero | crates/openconkit-tool-boq-inspector/src/formula.rs:174-195 | a leading minus is the difference from zero |
| FormulaTexts.ThreeCells | crates/openconkit-tool-boq-inspector/src/formula.rs:131-172 | products come before sums and differences go from left to right |
| FormulaTexts.SumAddsNamedCells | crates/openconkit-tool-boq-inspector/src/formula.rs:61-95 | `SUM` adds up, row by row, the values of exactly those cells of the rectangle whose names have one |
| FormulaTexts.MalformedTextsAreRefused | crates/openconkit-tool-boq-inspector/src/formula.rs:44-50 | an open parenthesis, a missing operand, something after the end and a strange character are refused for what they are |
| FormulaTexts.SumNeedsOneRange | crates/openconkit-tool-boq-inspector/src/formula.rs:61-72 | `SUM` of several arguments or of no range is refused, and so is an empty formula |
| FormulaTexts.SpelledTextLexes | crates/openconkit-tool-boq-inspector/src/formula.rs:210-277 | any text made of spellings of tokens with blanks between them lexes to those tokens |
| FormulaTexts.DecoratedNameSpells | crates/openconkit-tool-boq-inspector/src/formula.rs:279-302 | a cell's name in any mixture of cases and with dollar signs spells it |
| FormulaTexts.AnySpellingKeepsMeaning | crates/openconkit-tool-boq-inspector/src/formula.rs:19-51 | every such spelling of a tree, with or without the equals sign and with blanks around it, evaluates to the tree's value or first failure |
| JsonRpc.OnlyPlainResponsesComplete | crates/openconkit-ai-codex/src/transport.rs:376-408 | only an envelope with an unsigned id, no method and a result or error code is a response; it never yields the transport's own failures |
| JsonRpc.WrittenEnvelopesReadBack | crates/openconkit-ai-codex/src/transport.rs:355-364 | the envelopes the client writes classify as what they are; a refusal carries -32601 (section 5.1 of the JSON-RPC 2.0 Specification) |
| TransportProtocol.IdsNeverReused | crates/openconkit-ai-codex/src/transport.rs:176-180 | over every run ids are pairwise distinct if and only if at most 2^64 requests were issued |
| TransportProtocol.RunValid | crates/openconkit-ai-codex/src/transport.rs:165-201 | the whole invariant of table, senders, inboxes and receipts holds after every interleaving of issue, write failure, response, timeout, reader exit and shutdown |
| TransportProtocol.ReturnedRequests | crates/openconkit-ai-codex/src/transport.rs:188-200 | a returned request is not pending, and a server result it returned came from a response bearing its own id that was read after it was registered and given to nobody else |
| TransportProtocol.ResolvesAtMostOnce | crates/openconkit-ai-codex/src/transport.rs:188-200 | once a request has returned, no later step changes its outcome |
| TransportProtocol.TimeoutIsFinal | crates/openconkit-ai-codex/src/transport.rs:195-199 | a request whose deadline passed ends with the timeout, whatever else happens |
| TransportProtocol.LateResponseReachesNobody | crates/openconkit-ai-codex/src/transport.rs:342-346 | a response to a request that is no longer pending changes no request |
| TransportProtocol.TakeAllSchedulesEveryone | crates/openconkit-ai-codex/src/transport.rs:410-414 | taking the table empties it and schedules a failure for every request that was pending |
| TransportProtocol.ExitFailsEveryPendingRequest | crates/openconkit-ai-codex/src/transport.rs:410-418 | a scheduled failure is what the request receives, in every continuation |
| TransportProtocol.FailedStaysFailed | crates/openconkit-ai-codex/src/transport.rs:410-418 | a value once sent to a request is never replaced, so a failed request is never answered afterwards |
| TransportProtocol.NobodyHangs | crates/openconkit-ai-codex/src/transport.rs:188-200 | with the table empty and every failure delivered, each waiting request has a value to receive: none hangs until its deadline |
| TransportProtocol.NoAnswersAfterReaderStopped | crates/openconkit-ai-codex/src/transport.rs:292-325 | after the reader has stopped no further response is delivered |
| TransportProtocol.ChannelNeverCloses | crates/openconkit-ai-codex/src/transport.rs:193-194 | the branch for a sender dropped without a value is unreachable |
| TransportProtocol.ServerRequestsAreRefused | crates/openconkit-ai-codex/src/transport.rs:351-365 | the refusals written are exactly those of the server's requests whose write succeeded, in order |
| TransportProtocol.ResponseIsDelivered | crates/openconkit-ai-codex/src/transport.rs:327-346 | a line with a pending request's id, no method, and a result or an error code puts exactly that into that request's inbox and takes it out of the table; nobody else is touched, and a waiting request can return it |
| TransportProtocol.AnswerIsWhatReturns | crates/openconkit-ai-codex/src/transport.rs:188-200 | the answer stays through every continuation and is what the request returns, unless its write fails or its deadline passes |
| TransportProtocol.RoundTrip | crates/openconkit-ai-codex/src/transport.rs:176-200 | a request that is registered, written and answered returns the answer |
| TransportProtocol.FailedWriteReturns | crates/openconkit-ai-codex/src/transport.rs:188-192 | one whose write fails returns that failure and leaves the table |
| TransportProtocol.OtherLinesDo | crates/openconkit-ai-codex/src/transport.rs:327-368 | a server request is refused under its own id, a notification changes nothing, a response nobody waits for is noted, anything else ends the reader |
| TransportClient.Shared.TakeId | crates/openconkit-ai-codex/src/transport.rs:176-180 | issuing is the protocol's issue step |
| TransportClient.Shared.EnterTable | crates/openconkit-ai-codex/src/transport.rs:186-187 | registering is the protocol's register step |
| TransportClient.Shared.LeaveTable | crates/openconkit-ai-codex/src/transport.rs:188-199 | both clean-ups remove the request's own entry |
| TransportClient.Shared.HandleLine | crates/openconkit-ai-codex/src/transport.rs:327-368 | one line changes the shared state exactly as the protocol's line step, whose effects the rows above state by the fields of the line, and is accepted unless it does not parse or is no envelope |
| TransportClient.Shared.FailAllPending | crates/openconkit-ai-codex/src/transport.rs:410-418 | the table is emptied and exactly the requests in it fail |
| TransportClient.FailAllIsARun | crates/openconkit-ai-codex/src/transport.rs:410-418 | failing all is a run of protocol steps, so everything proved of runs covers it |
| TransportClient.FramedLines | crates/openconkit-ai-codex/src/transport.rs:292-325 | the lines handled are the nonempty terminated lines of the whole stream before the first over-long or refused one, and that refused line itself |
| TransportClient.Shared.HandleBuffered | crates/openconkit-ai-codex/src/transport.rs:305-321 | the inner loop handles every complete line of the buffer and keeps the rest |
| TransportClient.Shared.ReadStdout | crates/openconkit-ai-codex/src/transport.rs:292-325 | with nobody else at the table, the outcome depends on the byte stream only, not on how it is cut into reads; the buffer never exceeds the limit plus one read; every exit fails all pending requests |
| TransportReader.HandledLinesAreFramed | crates/openconkit-ai-codex/src/transport.rs:292-325 | however reading interleaves with requests, time-outs and shutdown, the handled lines are a beginning of the framed lines of everything sent, and all of those received when the reader ends by itself; the buffer stays bounded |
| TransportReader.ProtocolRuns | crates/openconkit-ai-codex/src/transport.rs:292-325 | the protocol part of every such run is a run of the protocol, so everything proved of those covers it, and its line events carry the messages of the handled lines in order |
| AiChunks.SplitGreedily | crates/openconkit-tool-boq-inspector/src/ai.rs:230-278 | the two loops compute the greedy split, and report too large a context if and only if the empty frame or some single item cannot fit alone |
| AiChunks.GreedyFailsIff | crates/openconkit-tool-boq-inspector/src/ai.rs:235-274 | the greedy split fails if and only if some item alone exceeds the budget |
| AiChunks.GreedySplitConserves | crates/openconkit-tool-boq-inspector/src/ai.rs:230-278 | the chunks' findings then rows are the input's, in order, none lost or repeated, and every chunk keeps within the estimate |
| AiChunks.GreedySplitIsMinimal | crates/openconkit-tool-boq-inspector/src/ai.rs:230-278 | no other order-preserving split within the estimate has fewer chunks |
| AiChunks.EmptyPromptIsRendered | crates/openconkit-tool-boq-inspector/src/ai.rs:232-233 | the fixed part of the estimate is the rendered prompt of an empty chunk with the longest index and count |
| AiChunks.ReserveSuffices | crates/openconkit-tool-boq-inspector/src/ai.rs:317-337 | the estimate plus the 1024-byte reserve dominates the rendered prompt, with its real commas and digits |
| AiChunks.RenderChunks | crates/openconkit-tool-boq-inspector/src/ai.rs:280-299 | the final size check can never be what rejects |
| AiChunks.BuildBoundedChunks | crates/openconkit-tool-boq-inspector/src/ai.rs:211-300 | chunking fails with too large a context exactly when it must, and otherwise renders the greedy split |
| AiChunks.CountsAlwaysFit | crates/openconkit-tool-boq-inspector/src/ai.rs:302-315 | the 32-bit counts of a chunk within the application's limit never overflow |
| AiChunks.PromptChunks | crates/openconkit-tool-boq-inspector/src/ai.rs:129-143 | a context that fits one prompt is sent whole; otherwise it is refused exactly when it cannot be split, or a 32-bit count overflows above a 4 GiB limit; every prompt is longer than its payload and within the limit, and together the chunks conserve the context |
| AiPrompts.CompletePromptLength | crates/openconkit-tool-boq-inspector/src/ai.rs:112-127 | the size by which a context is sent whole is the length of its prompt, spelled out with its payload and the payload's length |
| AiPrompts.ChunkPromptLength | crates/openconkit-tool-boq-inspector/src/ai.rs:317-337 | and so is a chunk's size of the chunk's prompt |
| AiPrompts.ChunkIsAsLongAsItsPrompt | crates/openconkit-tool-boq-inspector/src/ai.rs:280-299 | a rendered chunk's size is the length of its prompt around the serialised findings and rows, which is within the limit |
| AiPrompts.FitsPromptIff | crates/openconkit-tool-boq-inspector/src/ai.rs:155-175 | fragments fit one prompt exactly when the synthesis prompt made of their texts is within 1.5 MiB |
| AiReview.ValidateReview | crates/openconkit-tool-boq-inspector/src/ai.rs:345-386 | the validator accepts a review if and only if it is valid for the findings |
| AiReview.ValidateRisk | crates/openconkit-tool-boq-inspector/src/ai.rs:359-384 | the three loops over one risk: distinct authoritative findings cited nowhere else, distinct evidence of those findings |
| AiReview.EvidenceComesFromFindings | crates/openconkit-tool-boq-inspector/src/ai.rs:388-405 | the evidence table holds exactly the findings' ids with the references of a finding of that id |
| AiReview.ValidReviewsAreGrounded | crates/openconkit-tool-boq-inspector/src/ai.rs:345-386 | a valid review cites only authoritative findings, each in at most one risk and once, and only evidence of a finding of the same risk |
| AiReview.PartImpliesWholeIff | crates/openconkit-desktop/src/commands.rs:519-521 | all reviews valid for a chunk are valid for the full context if and only if the context knows every finding of the chunk with at least its evidence |
| AiReview.ChunkValidityImpliesFullValidity | crates/openconkit-desktop/src/commands.rs:506-545 | with unique finding ids that is always so |
| AiReview.AcceptedIff | crates/openconkit-tool-boq-inspector/src/ai.rs:345-405 | a review is accepted if and only if its texts are proper, each risk cites known findings once, its evidence are distinct texts sheet:cell of the findings it cites or of their evidence, and no finding is cited by two risks |
| AiReview.OneCitationAcceptedIff | crates/openconkit-tool-boq-inspector/src/ai.rs:388-405 | with unique ids, one citation of one finding is accepted exactly when its reference is sheet:cell of the finding or of a piece of its evidence |
| AiPlan.PartitionSynthesisOutputs | crates/openconkit-desktop/src/commands.rs:608-635 | consecutive groups that each fit a prompt and none of which could take the next fragment; it fails if and only if some fragment alone does not fit |
| AiPlan.GroupsAreLarge | crates/openconkit-desktop/src/commands.rs:608-635 | every group but the last has at least 23 fragments |
| AiPlan.RoundsAreCheap | crates/openconkit-desktop/src/commands.rs:548-577 | a round is only reached with at least two groups, is shorter than its input, and removes at least eleven fragments a turn |
| AiPlan.TakeTurn | crates/openconkit-desktop/src/commands.rs:518-521 | a turn yields its review if and only if it succeeded, parsed and is valid for what it was shown |
| AiPlan.TakeIntermediateTurn | crates/openconkit-desktop/src/commands.rs:600-606 | an intermediate review must also be at most 64 KiB |
| AiPlan.ReviewSources | crates/openconkit-desktop/src/commands.rs:506-528 | one accepted review a source chunk, stopping at the first refused one |
| AiPlan.ReduceGroups | crates/openconkit-desktop/src/commands.rs:552-576 | single fragments pass unchanged and cost nothing, every other group costs one turn; the group's size re-check never fires |
| AiPlan.ReduceRound | crates/openconkit-desktop/src/commands.rs:548-577 | a round never fails for lack of room, shortens the list, and keeps every source chunk represented once, in order |
| AiPlan.Synthesise | crates/openconkit-desktop/src/commands.rs:530-577 | the reduction loop terminates, only a refused turn makes it fail, and sources that fit one prompt are sent as the only and final one |
| AiPlan.ExecuteGroundedPlan | crates/openconkit-desktop/src/commands.rs:491-578 | the result of every run: which refusal, or the valid answer to the prompt that covers every chunk; the turns paid and the prompts sent |
| AiPlan.TurnsAreBounded | crates/openconkit-desktop/src/commands.rs:491-578 | no run pays more than 2n turns for n chunks, a successful one with n > 1 at least n+1, and beyond n+1 at most one turn per eleven chunks; too large a context is never reported |
| AiPlan.PlannedTurnsAreExact | crates/openconkit-desktop/src/commands.rs:754-763 | a successful run over several chunks pays the announced n + 1 turns if and only if the source fragments fit one prompt, which up to 23 of them always do |
| AiPlan.AnswersAreGrounded | crates/openconkit-desktop/src/commands.rs:506-545 | the plan's answer is the last turn's, valid for the full context, and every earlier answer was valid for its own chunk or the context and at most 64 KiB |
| AiPlan.FailuresAreReported | crates/openconkit-desktop/src/commands.rs:518-521 | a failing run reports a failed last turn as such and any other refused answer as invalid |
| AiPlan.EveryAnswerIsGrounded | crates/openconkit-desktop/src/commands.rs:506-574 | with unique finding ids every accepted answer is valid for the full context |
| AiPlan.FinalPromptCoversEverything | crates/openconkit-desktop/src/commands.rs:530-547 | the final prompt fits, shows only accepted earlier answers, and stems from every source chunk exactly once, in source order |
| Normalization.RewriteWithDecimal | crates/openconkit-tool-boq-inspector/src/normalization.rs:165-178 | all separators disappear but the last decimal one, which becomes a point |
| Normalization.SeparatorsBecomeOnePoint | crates/openconkit-tool-boq-inspector/src/normalization.rs:114-163 | for any text, the normalised one keeps every other character in order and at most one point, where the last point or comma stood |
| Normalization.CleanConcat | crates/openconkit-tool-boq-inspector/src/normalization.rs:84-105 | cleaning works character by character: blanks anywhere vanish and Arabic digits and marks fold, so texts differing only so read alike |
| Normalization.ParseNumber | crates/openconkit-tool-boq-inspector/src/normalization.rs:34-82 | the mutating parser is the reading the laws below are about |
| Normalization.SignsComeOff | crates/openconkit-tool-boq-inspector/src/normalization.rs:41-55 | parentheses, a trailing minus and a percent sign come off any number with any marks around it, leaving what is trimmed at both ends |
| Normalization.UnmarkSpelled | crates/openconkit-tool-boq-inspector/src/normalization.rs:41-55 | marks without a digit, separator, sign or letter e come off and leave exactly the number |
| Normalization.GroupsAreThousands | crates/openconkit-tool-boq-inspector/src/normalization.rs:138-148 | every group of a grouped number after the first is recognised as thousands |
| Normalization.WholeNumbersAreUnderstood | crates/openconkit-tool-boq-inspector/src/normalization.rs:114-163 | a printed whole number is read as it is, with confidence 100 without groups, 70 with one and 90 with more |
| Normalization.FractionsAreUnderstood | crates/openconkit-tool-boq-inspector/src/normalization.rs:114-163 | a printed fraction is read with its own decimal separator in both conventions with confidence 90 or 95, except three digits after one to three, which get 70 |
| Normalization.PrintedNumbersReadBack | crates/openconkit-tool-boq-inspector/src/normalization.rs:34-82 | any number printed in either convention, grouped or not, with any sign spelling, percent sign and such marks, is reduced to one plain text that the decimal library reads, with the confidence of its separators |
| NumberReadings.PrintedNumbersAreReadAs | crates/openconkit-tool-boq-inspector/src/normalization.rs:34-163 | with a library exact on that plain text, its value is the printed number's, or a thousand times it when the number is below one thousand with three fraction digits |
| NumberReadings.WrittenIsCleaned | crates/openconkit-tool-boq-inspector/src/normalization.rs:84-105 | a text written in any of the three scripts, with blanks anywhere, is cleaned to the Western text it writes |
| NumberReadings.WrittenNumbersAreReadAs | crates/openconkit-tool-boq-inspector/src/normalization.rs:34-163 | so any printed number written in Western, Arabic-Indic or Persian digits, with their separators, dashes and percent sign and blanks anywhere, is read as its value, or a thousand times it in the stated case |
| NumberReadings.ScriptNumeralIsRead | crates/openconkit-tool-boq-inspector/src/normalization.rs:84-96 | the numeral of a whole number in each of the scripts is read as that number |
| NumberReadings.ReadExactlyIff | crates/openconkit-tool-boq-inspector/src/normalization.rs:149-163 | so a printed number is read as exactly itself if and only if it is not such a number, or is zero |
| NumberReadings.AnEighthIsMisread | crates/openconkit-tool-boq-inspector/src/normalization.rs:155-160 | the exception is real: 0.125 is read as 125 |
| NumberReadings.ExactReadsExactly | crates/openconkit-tool-boq-inspector/src/normalization.rs:64-68 | the exactness asked of the library can be met: a reader that gives every plain text its value |
| NumberReadings.NegativesAgree | crates/openconkit-tool-boq-inspector/src/normalization.rs:41-49 | leading minus, trailing minus and parentheses give the same value |
| NumberReadings.MarksComeOffIff | crates/openconkit-tool-boq-inspector/src/normalization.rs:55-63 | marks come off if and only if they hold no digit, separator, sign or letter e, and leave a readable text if and only if any such characters are next to the number |
| NumberReadings.OtherMarksAreRefused | crates/openconkit-tool-boq-inspector/src/normalization.rs:55-63 | a number with any other marks is not read at all |
| NumberReadings.CurrencyCodes | crates/openconkit-tool-boq-inspector/src/normalization.rs:238-247 | of the currency codes the tool detects, USD, GBP, SAR, QAR and KWD come off; EGP, EUR and AED do not |
| NumberReadings.PoundsAreRefused | crates/openconkit-tool-boq-inspector/src/normalization.rs:55-63 | EGP 1,500 is not read as a number |
| Segmentation.CandidateSegments | crates/openconkit-tool-boq-inspector/src/detection.rs:133-157 | the loop computes the segments the next rows are about |
| Segmentation.SegmentsAreSegmentation | crates/openconkit-tool-boq-inspector/src/detection.rs:133-157 | segments start and end at occupied rows, leave none out, are at least three rows apart and have no inner gap above two |
| Segmentation.SegmentsAreRuns | crates/openconkit-tool-boq-inspector/src/detection.rs:133-157 | each occupied row is in one segment only, and neighbours share theirs if and only if they are at most two apart |
| SectionPaths.ReconstructSectionPaths | crates/openconkit-tool-boq-inspector/src/detection.rs:597-618 | in one pass in place, each priced row gets the latest heading plus the latest subheading after it, other rows stay |
| SectionPaths.PathsAreStable | crates/openconkit-tool-boq-inspector/src/detection.rs:597-618 | a second pass changes nothing |
| SectionPaths.AnyPathMeans | crates/openconkit-tool-boq-inspector/src/detection.rs:611-612 | the reported flag is whether some priced row got a path |
| SheetCells.DetectHeader | crates/openconkit-tool-boq-inspector/src/detection.rs:165-196 | the header is the one of the first eight rows that names two roles with the greatest share of texts and aliases, the last of equal ones, and none if and only if no row names two |
| SheetCells.HeaderIsUnique | crates/openconkit-tool-boq-inspector/src/detection.rs:165-196 | that leaves no choice |
| SheetCells.RolesMean | crates/openconkit-tool-boq-inspector/src/detection.rs:175-183 | a header's roles are those its cells name, by column |
| SheetCells.AliasesAreRoles | crates/openconkit-tool-boq-inspector/src/detection.rs:175-183 | and every cell that names a role gives it to its column |
| SheetCells.HeaderScoreMeans | crates/openconkit-tool-boq-inspector/src/detection.rs:190-193 | the score is 0.55 plus a quarter of the share of texts plus a fifth of the share of aliases; the cap at one never bites |
| SheetCells.CountColumns | crates/openconkit-tool-boq-inspector/src/detection.rs:300-322 | the loop over rows and cells gives each column's counts of cells, numbers, texts, units and currencies, and no column else |
| SheetCells.TallyMeans | crates/openconkit-tool-boq-inspector/src/detection.rs:300-322 | a column's counts are the numbers of its cells that are numbers, texts, long texts, units and currencies |
| SheetCells.NumbersMean | crates/openconkit-tool-boq-inspector/src/detection.rs:720-731 | the numbers searched for products are those of the row's cells, by column |
| Detection.ClassifyRow | crates/openconkit-tool-boq-inspector/src/detection.rs:625-683 | the kind of a row from its numbers, its texts, its description and what its text mentions, in the order of the checks |
| Detection.HeadedIsRecognized | crates/openconkit-tool-boq-inspector/src/detection.rs:57-66 | a table with a header always has two recognised columns, because the inference keeps the header's |
| Detection.DetectTable | crates/openconkit-tool-boq-inspector/src/detection.rs:43-105 | a segment becomes a table exactly when it has two rows, one of them below its header if it has one, and two recognised columns; every segment with rows below a header does; its rows are the occupied rows of its range, classified and with their paths |
| Detection.Detect | crates/openconkit-tool-boq-inspector/src/detection.rs:34-107 | the output's tables are exactly those of the segments of all worksheets, in order, each with its rows |
| Detection.AllTablesApart | crates/openconkit-tool-boq-inspector/src/detection.rs:34-107 | tables come in order, at least three rows apart |
| Detection.NoRowTwice | crates/openconkit-tool-boq-inspector/src/detection.rs:94-99 | the output's rows strictly ascend by sheet and row, so none is normalised twice, and an occupied row is among them if and only if a table covers it |
| Detection.KindsMean | crates/openconkit-tool-boq-inspector/src/detection.rs:625-683 | a heading row has one text and no number, a subheading row more texts, a note mentions one and has no number; priced rows are totals, subtotals, and rows with two numbers or a number beside a description |
| Detection.SectionPathMeans | crates/openconkit-tool-boq-inspector/src/detection.rs:597-618 | in the output, a priced row's path is the trimmed text of the last heading row above it in its table, then of the last subheading row after that; other rows have none |
| ColumnInference.AssignBestRatio | crates/openconkit-tool-boq-inspector/src/detection.rs:410-436 | the unassigned column with the greatest ratio, the last of equal ones, gets the role if it reaches the minimum and nobody has the role |
| ColumnInference.SearchTriples | crates/openconkit-tool-boq-inspector/src/detection.rs:457-486 | the triple loop keeps the first of the best triples |
| ColumnInference.InferArithmeticColumns | crates/openconkit-tool-boq-inspector/src/detection.rs:438-488 | the increasing triple with the greatest match fraction among all numeric unassigned triples with two comparable rows, the lexicographically first of equal ones, and none if and only if all are under 0.35 |
| ColumnInference.AssignItemNumbers | crates/openconkit-tool-boq-inspector/src/detection.rs:377-391 | the fallback takes the lowest suitable column |
| ColumnInference.EnterHeader | crates/openconkit-tool-boq-inspector/src/detection.rs:323-327 | header columns are counted too |
| ColumnInference.InferColumns | crates/openconkit-tool-boq-inspector/src/detection.rs:294-408 | every counted and header column appears once, in order, with one role, after exactly the described steps |
| ColumnInference.InferredUnique | crates/openconkit-tool-boq-inspector/src/detection.rs:294-408 | one assignment of roles follows from the counts, the numbers and the header |
| ColumnInference.InferenceKeepsHeader | crates/openconkit-tool-boq-inspector/src/detection.rs:328-375 | header columns keep their roles; roles stay unique if and only if the header's are and the search adds no pricing columns to a priced header |
| ColumnInference.RolesAreEarned | crates/openconkit-tool-boq-inspector/src/detection.rs:333-391 | a column without a header only gets a role it earns: 45 percent long texts, units or currencies, a place in a triple whose products are right in 35 percent of at least two rows, or 80 percent numbers and texts |
| ColumnInference.CountsAreRows | crates/openconkit-tool-boq-inspector/src/detection.rs:457-480 | the rows counted are those with three numbers, and those whose product is right to a cent or a thousandth |
| ColumnInference.RolesCanRepeat | crates/openconkit-tool-boq-inspector/src/detection.rs:361-374 | concrete columns under a description and a quantity header of which two become the quantity |
| LogRotation.ProtocolLogger.RotateIfNeeded | crates/openconkit-ai-codex/src/diagnostics.rs:145-165 | when the next record does not fit every file moves up by one, unless one of the operations needed fails; a failure anywhere loses at most the oldest file and still leaves a window on history |
| LogRotation.ProtocolLogger.WriteRecord | crates/openconkit-ai-codex/src/diagnostics.rs:111-134 | the files after a write, for every way it can fail: a record is written if and only if nothing needed fails, a failing write leaves a beginning of it, and no other file changes but by rotation |
| LogRotation.DiskIsWindowOnHistory | crates/openconkit-ai-codex/src/diagnostics.rs:145-169 | oldest to newest, the files' bytes are the end of the history of writes, cut between two of them |
| LogRotation.FilesAreBounded | crates/openconkit-ai-codex/src/diagnostics.rs:145-149 | no file exceeds the limit when no record does |
| LogRotation.HistoryIsKept | crates/openconkit-ai-codex/src/diagnostics.rs:145-165 | as long as nothing fails the files hold the whole history, or its end with every rotated file so full that the next record no longer fitted |
| RunStore.Database.SaveRun | crates/openconkit-storage/src/runs.rs:32-36 | a save is the transaction on the tables or nothing |
| RunStore.Database.SaveAggregate | crates/openconkit-storage/src/runs.rs:74-122 | the aggregate saves are whole transactions: a rejected or failing one changes nothing |
| RunStore.CommittedIff | crates/openconkit-storage/src/runs.rs:208-291 | a transaction is accepted if and only if the source is the project's, the identity is unchanged, an output is a completed run's, and its findings match the run, have distinct ids and none of another run's |
| RunStore.InsertedIff | crates/openconkit-storage/src/findings.rs:58-110 | findings are inserted if and only if their ids are new and distinct |
| RunStore.StepKeeps | crates/openconkit-storage/src/runs.rs:208-291 | every transaction keeps sources in their project, findings matching their run, identities and start times |
| RunStore.StoreStaysConsistent | crates/openconkit-storage/src/runs.rs:208-320 | and so does every sequence of them, failing or not |
| RunStore.ReplacedFindings | crates/openconkit-storage/src/runs.rs:84-88 | an accepted aggregate replaces exactly its own run's findings |
| RunStore.CompletedRunsHaveTheirOutput | crates/openconkit-desktop/src/commands.rs:1604-1683 | however executions interleave and fail, a completed run has its output and exactly that output's findings |
| RunExecutions.Executor.CloseRun | crates/openconkit-desktop/src/commands.rs:1621-1683 | the engine's result becomes the closing save and the answer: completed with its output, cancelled, failed, or a store error when that save is refused |
| RunExecutions.Executor.ExecuteToolRun | crates/openconkit-desktop/src/commands.rs:1523-1664 | one execution is the checks in their order, the opening save and the closing save, and gives its id back on every way out |
| RunExecutions.ClosingAcceptedIff | crates/openconkit-desktop/src/commands.rs:1656-1683 | the closing save is refused if and only if the store fails or a completed run's findings mismatch, repeat an id or have another run's |
| RunExecutions.ExecutionOutcome | crates/openconkit-desktop/src/commands.rs:1523-1683 | when an execution starts, and when it ends completed, failed, cancelled or refused, if and only if, in terms of the request, the tables, the engine and the faults; the stored run with every field; a started run is left running exactly when its closing save is refused |
| RunExecutions.SuccessStores | crates/openconkit-desktop/src/commands.rs:1647-1663 | a success stores its output and exactly that output's findings, and changes no other run's |
| RunExecutions.UninterruptedExecution | crates/openconkit-desktop/src/commands.rs:1523-1664 | the steps of one execution in a row, from any state, do what the sequential execution does |
| RunExecutions.RanValid | crates/openconkit-desktop/src/commands.rs:1566-1683 | the invariant of interleaved executions: times, phases, ids held and stored statuses fit together |
| RunExecutions.HoldersAreAlone | crates/openconkit-desktop/src/commands.rs:1572-1588 | no two executions hold the same id, and while one runs its tool the stored run is running |
| RunExecutions.ReopenedIffOvertaken | crates/openconkit-desktop/src/commands.rs:1566-1603 | over all interleavings a completed run later is not completed if and only if some execution of its id passed the existence check before the completing one saved the run, and took the id after it was given back |
| RunExecutions.CompletionMeansSuccess | crates/openconkit-desktop/src/commands.rs:1566-1664 | a run is stored as completed only if it was before or an execution succeeded, and a success lasts unless overtaken |
| RunExecutions.StaleCheckReopens | crates/openconkit-desktop/src/commands.rs:1566-1603 | the interleaving that does it: of two executions of one request the first completes, then the second sets the run back to running |
| RunExecutions.InterleavingsKeepTheStore | crates/openconkit-desktop/src/commands.rs:1523-1683 | every interleaving keeps the store consistent and completed runs with their output |
| SourceVault.CopyHashed | crates/openconkit-storage/src/source_storage.rs:174-215 | the copy, or which error ends it, for every read error, limit and failing write |
| SourceVault.CopiedIff | crates/openconkit-storage/src/source_storage.rs:174-215 | the copy depends on the delivered bytes only, and is made if and only if they are all read within the limit and no write fails |
| SourceVault.Vault.UniqueDest | crates/openconkit-storage/src/source_storage.rs:217-240 | the loop over the numbered names |
| SourceVault.FirstFreeMeans | crates/openconkit-storage/src/source_storage.rs:217-240 | it finds the first free of the name and its variants up to 9999, an existing file never; none if and only if all are taken |
| SourceVault.NumberedName | crates/openconkit-storage/src/source_storage.rs:222-236 | the number goes between the stem and the extension, or at the end when there is none |
| SourceVault.NamesDiffer | crates/openconkit-storage/src/source_storage.rs:222-236 | all names tried are different |
| SourceVault.Vault.Import | crates/openconkit-storage/src/source_storage.rs:33-130 | the result and the files after an import: which error, one new file with the source's content, or that file left behind when hardening and its clean-up both fail |
| SourceVault.BlockedIff | crates/openconkit-storage/src/source_storage.rs:33-109 | an import reaches the vault if and only if name, extension, kind, size, content and a free name allow it and nothing fails on the way |
| SourceVault.Vault.Discard | crates/openconkit-storage/src/source_storage.rs:132-142 | a discard removes the copy or fails |
| SourceVault.RevisionTable.Save | crates/openconkit-storage/src/sources.rs:26-52 | a revision is inserted if and only if its id and its project and hash are new |
| SourceVault.ImportSource.CleanupAfterFailure | crates/openconkit-application/src/use_cases.rs:251-263 | the cause is reported when the copy could be undone, a rollback failure otherwise |
| SourceVault.ImportSource.RecordCopy | crates/openconkit-application/src/use_cases.rs:209-248 | a fresh copy is recorded, or undone in favour of the project's revision of the same content, or undone for the error that is reported |
| SourceVault.ImportSource.Execute | crates/openconkit-application/src/use_cases.rs:184-249 | the whole import: result, files and revisions |
| SourceVault.ImportSucceedsIff | crates/openconkit-application/src/use_cases.rs:184-249 | an import succeeds if and only if the project exists, the vault accepts the file, and the content is already recorded and its copy can be discarded, or can be recorded; and with which revision |
| SourceVault.FaultlessImport | crates/openconkit-storage/src/source_storage.rs:33-109 | which error an import ends with when nothing fails |
| SourceVault.RollbackIff | crates/openconkit-application/src/use_cases.rs:251-263 | a failed rollback is reported exactly when a copy that cannot be recorded cannot be discarded either |
| SourceVault.ImportKeeps | crates/openconkit-application/src/use_cases.rs:184-263 | an import changes and loses no file and no revision, and leaves a file without a revision exactly in the stated case of a failing clean-up |
| SourceVault.OneToOneIffNoStrays | crates/openconkit-application/src/use_cases.rs:184-263 | files and revisions correspond one to one if and only if no file is without a revision |
| SourceVault.OneToOneIffNoStrayLeft | crates/openconkit-application/src/use_cases.rs:184-263 | over any sequence of imports, failing or not, files and revisions stay one to one if and only if no attempt left such a file |
| SourceVault.CleanRunsStayOneToOne | crates/openconkit-application/src/use_cases.rs:184-263 | in particular when no discard fails and no hardening fails together with its clean-up |
| SourceVault.SameContentSameRevision | crates/openconkit-application/src/use_cases.rs:209-221 | a content imported into a project again, whatever was imported in between, gives the revision of the first time |
| SettingsFiles.App.SaveBoth | crates/openconkit-desktop/src/commands.rs:92-106 | the two-file save with its rollback, for every way its writes can end |
| SettingsFiles.App.UpdateSettings | crates/openconkit-desktop/src/commands.rs:81-107 | success leaves both files and both copies at the patched agreeing values, an undone error leaves all four |
| SettingsFiles.App.PersistSuccessfulCheck | crates/openconkit-desktop/src/updater.rs:244-271 | the same for the timestamp of an update check |
| SettingsFiles.App.BootstrapHome | crates/openconkit-storage/src/home.rs:62-91 | a successful start agrees with the settings file it found, which it never overwrites |
| SettingsFiles.RunsAreCoherent | crates/openconkit-desktop/src/commands.rs:85-107 | over every run a running process holds exactly what the settings file says |
| SettingsFiles.UpdatesArePatches | crates/openconkit-desktop/src/commands.rs:81-107 | an update saves exactly what its patch names, keeps the rest, and is refused as a whole |
| SettingsFiles.SettingsAreWhole | crates/openconkit-desktop/src/commands.rs:85-107 | over every run with crashes the settings file is a whole old value, a whole offered value or the defaults |
| SettingsFiles.SuccessfulStartReconciles | crates/openconkit-storage/src/home.rs:75-91 | after any run, a successful start makes both files and both copies agree with the settings file it found |
| SettingsFiles.InterruptedSaveIsWhole | crates/openconkit-desktop/src/commands.rs:85-107 | after a save interrupted anywhere and any exits and starts, a start that succeeds has both files and both copies at the whole new settings or the whole old ones, and which |
| SettingsFiles.SmoothRunsStayInStep | crates/openconkit-desktop/src/updater.rs:244-269 | without crashes and failed rollbacks the channel file never disagrees with a running process |

## Left out

- Process spawning, version checks, logins, account mapping and profile files: I/O and one-branch validation.
- Calamine, ZIP, SQLite, Typst, xlsx writing, SHA-256 and serde: foreign libraries, here finite maps with atomic transactions, a hash function as parameter and an additive length.
- The rules and their findings, the user interface, exports and the updater's network code.
- `invalid_cell_reference` and the numeric-slice failure of the lexer: both slices lie on character boundaries, so the branches cannot be reached.
- Stack depth of the recursive parser and of `SUM` rectangles: Dafny's recursion is unbounded.
- Dropped request futures and wake-up order: a request task runs until it returns; cancellation of a paid turn is a failed turn.
- Checks made before a request takes an id (an empty method, a zero timeout) and the size limit of outgoing messages, which is a write failure here.
- TransportProtocol.RunValid: covers runs of up to 2^64 requests, beyond which ids repeat as `TransportProtocol.IdsNeverReused` says.
- Logger calls inside the transport, and notifications, which only leave through a broadcast channel.
- JSON parsing: the parse of a line is a parameter, and so are the lengths of serialised items and reviews; texts are counted as if each character were a byte.
- `InvalidStoredOutput` when a stored output does not deserialise: a context is its typed findings and rows here.
- The aliases, units, currencies and phrases a cell's or a row's text is recognised by are flags of the cell or the row; the header score is exact; confidences and evidence labels are not modelled.
- The values a normalised row takes from its cells: one lookup each.
- ColumnInference.InferColumns: confidences are not modelled.
- ColumnInference.InferArithmeticColumns: products and tolerances are real numbers, so decimal rounding and the overflow of a product are not modelled.
- NumberReadings.PrintedNumbersAreReadAs: the decimal library's range and precision are left out: it is asked to be exact on the one plain text it is given.
- A failed metadata read of an existing live log counts as a missing file in the source; here the size is always known.
- LogRotation.ProtocolLogger.WriteRecord: symbolic links and non-regular files are inspection failures; a poisoned lock is not modelled.
- Filename sanitising, path confinement, permissions and the temporary copy are reduced to an optional safe name and the failures of the steps.
- Concurrent imports: between the search for a free name and the rename another process could take the name.
- SourceVault.ImportSource.Execute: the project id is well formed; `QuickImport` only chooses the project; revision validation cannot fail on vault paths.
- RunExecutions.Executor.ExecuteToolRun: a poisoned lock, and the token by which a running tool is cancelled; cancellation is an engine result.
- Corrupt and legacy settings files and their backups: a settings file is a whole value here, as the atomic write leaves it.
- SettingsFiles.App.BootstrapHome: layout, database migration and the rest of a start are one flag.
- The used-range and cell counters of the reader: one-line updates.
