# Models of the mac80211 package: Kconfig, FQ, CoDel, PKCS#7, netlink, arithmetic

The mac80211 package of this firmware carries a configuration language with its own
three-valued expression optimiser, a fair packet scheduler with active queue management, a
signature verifier, a netlink attribute validator and a 64-bit multiply-divide. This project
models their logic in Dafny and proves what it is for. `dafny verify dfyconfig.toml` checks
everything.

| files | what they model |
|---|---|
| KconfigExpr, KconfigEq, KconfigSame, KconfigTransform, KconfigDups, KconfigConsts, KconfigFinds | dependency expressions, their value, and every rewriting of kconf/expr.c |
| KconfigPropagate, KconfigTree, KconfigSubmenu | dependency propagation by menu_finalize over the whole tree, selects and implies, visibility, and the test for automatic submenus |
| MenuTree, MenuShape, MenuFinalize | the pointer structure of the menu, its restructuring, and the walk of conf_write |
| SymDeps | the search for recursive dependencies |
| ConfigText, ConfigBuffer, ConfigFile | printing and reading of a .config file, down to the buffers |
| CodelArith, CodelExam, Codel | the reciprocal square root and the drop state machine of CoDel (RFC 8289) |
| FqState, FqSteps, FqSchedule, FqFair, FqOverload, Fq, FqExample, FqStarve | the FQ scheduler (section 4 of RFC 8290): accounting, overload, deficit round robin, fairness, no starvation |
| Pkcs7Chains, Pkcs7 | certificate chains, blacklisting and trust |
| Netlink, NetlinkPolicy | validation of nested attributes against policies, and what it accepts |
| MulDiv | 64-bit multiplication and division |
| Common | what several of them share |

How the source's forms appear:

* Rewriting of expressions through `struct expr **` is a function from old to new trees. Where two
  slots lie in one and the same tree (expr_eliminate_dups1) the slots are paths into one tree
  value, so that a write through one is seen through the other.
* Objects updated in place are classes: `Codel.Queue`, `Fq.Scheduler`, `MenuFinalize.Menus`,
  `SymDeps.DepChecker`, `Pkcs7.Message`, `ConfigFile.LineReader`. Their invariants and what each
  method does to the state are stated with it; ghost fields record the history that safety over
  whole sequences of calls speaks about. C buffers are arrays.
* 32-bit and 64-bit wrap-around is written out. Times in CoDel are unwrapped ghost values of
  which the code sees the remainder modulo 2^32.
* Hashing, signature checks, the keyring, key id comparison, symbol lookup, validation functions
  of netlink policies, strtoll and the clock are parameters.
* ilog2(0) is -1, as fls64(0) - 1 gives it.

Where the code differs from what one might expect of it, the difference is stated and proved:

* expr_transform does not keep the value of a negated ordering of symbols that cannot be ordered
  (`KconfigTransform.ComplementNegates`, `KconfigTransform.UnorderedBreaksTransform`).
* expr_trans_compare does not compare a negated operand correctly when the operand is m
  (`KconfigTransform.CompareNoAtNegation`, `KconfigTransform.CompareNoFails`).
* expr_join_and changes the value of an expression that compares a tristate symbol with a numeric
  constant that counts as the same value as the other one
  (`KconfigConsts.JoinExactIff`, `KconfigConsts.NumericConstantBreaksJoin`).
* sym_check_deps, called for a symbol while no other is being checked, always returns NULL, also
  after it has reported a recursive dependency: the frame of the symbol that closes the cycle turns
  the answer into NULL (kconf/symbol.c:1340-1341). The error count of kconf/zconf.y:555-556
  therefore never moves for graphs without choice groups (`SymDeps.CheckAll`).
* mul_u64_u64_div_u64 shifts a 64-bit value by 64 for some operands, which C leaves undefined
  (`MulDiv.ShiftDefined`, `MulDiv.FullWidthShift`, `MulDiv.FinalProductOverflows`).
* Trust validation does not look at the blacklisting of a signed info (`Pkcs7.BlacklistedAccepted`;
  when an accepted info is blacklisted: `Pkcs7.VerifyAndTrust`).
* An info that a keyring key verifies directly is not always accepted: not, for one, when an earlier
  info has looked at the certificate they share without marking it, even if that info was accepted
  through the same key (`Pkcs7.DirectRefused`; exactly when it is accepted:
  `Pkcs7Chains.DirectAccepted`).
* A menu heading whose text reads like a commented-out symbol is read as one, so that the round
  trip of a .config file holds exactly for the others (`ConfigText.FileRoundTrip`,
  `ConfigText.HarmlessIff`, `ConfigText.HeadingUnsets`).
* A CoDel window that would end at a multiple of 2^32 is taken for none, so that a queue can stay
  above target for longer than interval without consequence; otherwise the test is exact
  (`CodelExam.MissedWindow`, `CodelExam.OkIff`).
* The signed comparisons of CoDel mean what they are for exactly up to half of their range
  (`CodelArith.WindowExact`, `CodelArith.TargetExact`).
* In pkcs7_verify_sig_chain the test `x509 == p` behind the signature check is never true, since
  the certificate has been marked as seen before; it has no counterpart in the model.

## Model

| member | source | states |
|---|---|---|
| `KconfigExpr.CompareWithConst` | src/omnia-ng/openwrt/package/kernel/mac80211/src/kconf/expr.c:1064-1104 | A bool or tristate symbol compared with y, m or n tests exactly its three-valued value, through the string comparison of the source |
| `KconfigExpr.CompareMatches` | src/omnia-ng/openwrt/package/kernel/mac80211/src/kconf/expr.c:1064-1104 | A bool or tristate symbol compared with any symbol: which of its values compare equal, through number and string comparison |
| `KconfigExpr.TriConstsApart` | src/omnia-ng/openwrt/package/kernel/mac80211/src/kconf/expr.c:1064-1104 | No value of a symbol compares equal to two of y, m and n |
| `KconfigExpr.CompareNumbers` | src/omnia-ng/openwrt/package/kernel/mac80211/src/kconf/expr.c:991-1104 | Each of the six relations on two int or two hex symbols is that relation of the numbers they hold |
| `KconfigExpr.CompareTristates` | src/omnia-ng/openwrt/package/kernel/mac80211/src/kconf/expr.c:991-1104 | On bool and tristate symbols it is that relation in the order n, m, y |
| `KconfigExpr.CompareTexts` | src/omnia-ng/openwrt/package/kernel/mac80211/src/kconf/expr.c:1064-1104 | On string symbols it is the order of their characters |
| `KconfigEq.EliminateYNKeepsValue` | src/omnia-ng/openwrt/package/kernel/mac80211/src/kconf/expr.c:308-389 | Removing y and n operands keeps the value of every expression under every assignment |
| `KconfigEq.EliminateYNComplete` | src/omnia-ng/openwrt/package/kernel/mac80211/src/kconf/expr.c:308-389 | No conjunction or disjunction with a y or n operand is left anywhere |
| `KconfigEq.EqIsEquivalence` | src/omnia-ng/openwrt/package/kernel/mac80211/src/kconf/expr.c:251-295 | expr_eq, itself defined through the elimination it guards, only equates expressions of equal value under the given assignment |
| `KconfigEq.EqSound` | src/omnia-ng/openwrt/package/kernel/mac80211/src/kconf/expr.c:251-295 | expr_eq returning true implies equal values under every assignment |
| `KconfigEq.TakenRestores` | src/omnia-ng/openwrt/package/kernel/mac80211/src/kconf/expr.c:149-189 | One elimination pass: each old tree is the same taken operands combined, by one operator, with its new tree |
| `KconfigEq.CommonFactorRemoved` | src/omnia-ng/openwrt/package/kernel/mac80211/src/kconf/expr.c:220-240 | expr_eliminate_eq: there are one expression and one operator that restore both old expressions from the new ones, under every assignment |
| `KconfigEq.ReducedToYesBounds` | src/omnia-ng/openwrt/package/kernel/mac80211/src/kconf/menu.c:472-483 | If the second expression is reduced to y, the first one is never above it: the superset test of automatic submenus is sound |
| `KconfigEq.NothingCommonLeft` | src/omnia-ng/openwrt/package/kernel/mac80211/src/kconf/expr.c:149-189 | After a pass no operand of one tree passes the cancel test with an operand of the other |
| `KconfigSame.EqReflexive` | src/omnia-ng/openwrt/package/kernel/mac80211/src/kconf/expr.c:251-295 | expr_eq holds of every expression and itself |
| `KconfigSame.EqIff` | src/omnia-ng/openwrt/package/kernel/mac80211/src/kconf/expr.c:251-295 | On expressions without y and n operands expr_eq decides sameness up to the order and grouping of operands at every level |
| `KconfigSame.NoOperandTwice` | src/omnia-ng/openwrt/package/kernel/mac80211/src/kconf/expr.c:149-189 | After a pass the two levels have no operand in common but y and n |
| `KconfigSame.PassIsDifference` | src/omnia-ng/openwrt/package/kernel/mac80211/src/kconf/expr.c:149-189 | A pass over two such levels leaves of each exactly the operands, counted, that the other does not have |
| `KconfigSame.EliminateEqIsDifference` | src/omnia-ng/openwrt/package/kernel/mac80211/src/kconf/expr.c:220-240 | expr_eliminate_eq does so, and a level that has none left is the neutral constant |
| `KconfigSame.ExamplePrefix` | src/omnia-ng/openwrt/package/kernel/mac80211/src/kconf/expr.c:190-218 | A && B against A && B && C gives y and C, and with || it gives n and C, for all operands A, B and symbols C |
| `KconfigSame.ExampleGrouping` | src/omnia-ng/openwrt/package/kernel/mac80211/src/kconf/expr.c:190-218 | A && (B && FOO) against (BAR && B) && A gives FOO and BAR, for all such operands |
| `KconfigSame.ExampleNested` | src/omnia-ng/openwrt/package/kernel/mac80211/src/kconf/expr.c:190-218 | A && (B || C) against (C || B) && A gives y and y, for all such operands |
| `KconfigTransform.TransformKeepsValue` | src/omnia-ng/openwrt/package/kernel/mac80211/src/kconf/expr.c:686-841 | expr_transform, with its nested re-transformation, keeps the value under every assignment that can order the operands of the orderings in it |
| `KconfigTransform.TransformEquivalent` | src/omnia-ng/openwrt/package/kernel/mac80211/src/kconf/expr.c:686-841 | If no operand of an ordering is of the type "other", it keeps the value under every assignment |
| `KconfigTransform.TransformNormalises` | src/omnia-ng/openwrt/package/kernel/mac80211/src/kconf/expr.c:686-841 | It leaves negation only directly above non-constant symbols and no bool symbol tested for equality with n, m or y |
| `KconfigTransform.TransformFixesNormal` | src/omnia-ng/openwrt/package/kernel/mac80211/src/kconf/expr.c:686-841 | It changes nothing in an expression that is already of that form |
| `KconfigTransform.TransformIdempotent` | src/omnia-ng/openwrt/package/kernel/mac80211/src/kconf/expr.c:686-841 | A second transformation changes nothing |
| `KconfigTransform.ComplementNegates` | src/omnia-ng/openwrt/package/kernel/mac80211/src/kconf/expr.c:762-786 | The relation put in place of a negated one negates the comparison if and only if the operands can be ordered, where they have to be |
| `KconfigTransform.UnorderedBreaksTransform` | src/omnia-ng/openwrt/package/kernel/mac80211/src/kconf/expr.c:770-784 | A concrete negated comparison of symbols that cannot be ordered, which the transformation changes from y to n |
| `KconfigTransform.TransBoolKeepsNo` | src/omnia-ng/openwrt/package/kernel/mac80211/src/kconf/expr.c:394-418 | On a normalised condition expr_trans_bool keeps whether the condition is n and never raises it |
| `KconfigFinds.TransBoolComplete` | src/omnia-ng/openwrt/package/kernel/mac80211/src/kconf/expr.c:394-418 | After it no tristate symbol is compared with n by !=, and nothing changes where there was none |
| `KconfigTransform.RewriteMReads` | src/omnia-ng/openwrt/package/kernel/mac80211/src/kconf/menu.c:81-104 | rewrite_m gives the value of the expression with m read as m && MODULES |
| `KconfigTransform.CompareNoExact` | src/omnia-ng/openwrt/package/kernel/mac80211/src/kconf/expr.c:914-977 | expr_trans_compare against n is the test against n wherever no negated operand is m |
| `KconfigTransform.CompareNoAtNegation` | src/omnia-ng/openwrt/package/kernel/mac80211/src/kconf/expr.c:945-946 | At a negation the rewriting is exact if and only if the negated operand is not m |
| `KconfigTransform.CompareNoFails` | src/omnia-ng/openwrt/package/kernel/mac80211/src/kconf/expr.c:945-946 | A symbol and an assignment at which it is not exact |
| `KconfigDups.JoinOrSound` | src/omnia-ng/openwrt/package/kernel/mac80211/src/kconf/expr.c:423-485 | Every rule of expr_join_or gives the maximum of its two operands under every assignment |
| `KconfigDups.JoinAndSound` | src/omnia-ng/openwrt/package/kernel/mac80211/src/kconf/expr.c:487-579 | Every rule of expr_join_and gives the minimum of its two operands under every assignment that keeps apart the constants with which tristate symbols are compared |
| `KconfigFinds.EqualsJoin` | src/omnia-ng/openwrt/package/kernel/mac80211/src/kconf/expr.c:423-489 | Operands that expr_eq equates are joined, so two that are the same always are |
| `KconfigFinds.TwoOfThree` | src/omnia-ng/openwrt/package/kernel/mac80211/src/kconf/expr.c:448-465 | Two tests of a tristate symbol for different values join to the test of the third, for || and for &&, in either order |
| `KconfigFinds.EqualAndUnequal` | src/omnia-ng/openwrt/package/kernel/mac80211/src/kconf/expr.c:531-545 | An equality and an inequality with constants join to n or to the equality, in either order |
| `KconfigFinds.WithTheSymbol` | src/omnia-ng/openwrt/package/kernel/mac80211/src/kconf/expr.c:466-529 | A symbol joins with its comparisons with y, n and m, and a bool symbol with its negation, in either order |
| `KconfigConsts.JoinExactIff` | src/omnia-ng/openwrt/package/kernel/mac80211/src/kconf/expr.c:531-545 | For two different constants the rule (a='b') && (a!='c') -> (a='b') keeps the value under every assignment if and only if no value compares equal to both |
| `KconfigConsts.NumericConstantBreaksJoin` | src/omnia-ng/openwrt/package/kernel/mac80211/src/kconf/expr.c:531-545 | A concrete assignment under which a join with the constant "0" changes the value: the restriction above is needed |
| `KconfigDups.JoinedKeepsValue` | src/omnia-ng/openwrt/package/kernel/mac80211/src/kconf/expr.c:618-640 | Putting a join into one slot and the neutral constant into the other keeps the value of the whole tree, the two slots lying in one tree |
| `KconfigDups.EliminateDups1` | src/omnia-ng/openwrt/package/kernel/mac80211/src/kconf/expr.c:588-643 | The pair walk over two slots of one tree: the tree keeps its value under every assignment that keeps its constants apart, keeps its slots and does not grow; if anything was joined a removable constant is left behind, otherwise nothing changed and every pair of operands is known not to join |
| `KconfigDups.RewriteOperand` | src/omnia-ng/openwrt/package/kernel/mac80211/src/kconf/expr.c:612-617 | The nested walk inside an operand of the other operator keeps the value of the enclosing tree |
| `KconfigDups.EliminateDups` | src/omnia-ng/openwrt/package/kernel/mac80211/src/kconf/expr.c:656-678 | expr_eliminate_dups ends, keeps the value under every assignment that keeps apart the given constants, among them those compared with tristate symbols, and under every assignment if they are y, m and n; it does not grow the expression, and leaves no two operands of one level that join |
| `KconfigDups.EliminateDupsAnywhere` | src/omnia-ng/openwrt/package/kernel/mac80211/src/kconf/expr.c:656-678 | The same for any expression whatever: the value stays wherever y, m, n and the constants it compares tristate symbols with are kept apart, which is everywhere if those are y, m and n only |
| `KconfigFinds.NoOperandAgain` | src/omnia-ng/openwrt/package/kernel/mac80211/src/kconf/expr.c:656-678 | Afterwards no operand stands twice on a level, nor do two that expr_eq equates |
| `KconfigDups.RedexShrinks` | src/omnia-ng/openwrt/package/kernel/mac80211/src/kconf/expr.c:308-389 | Constant elimination strictly shrinks a tree with a removable constant, which is why the passes end |
| `KconfigPropagate.Propagate` | src/omnia-ng/openwrt/package/kernel/mac80211/src/kconf/menu.c:348-352 | An expression under an enclosing one is the minimum of the two, with m read as m && MODULES in its own, and nothing in it joins any more |
| `KconfigPropagate.PropagateProperty` | src/omnia-ng/openwrt/package/kernel/mac80211/src/kconf/menu.c:368-413 | The condition of a property is the minimum of the parent's dependency, the child's and its own, exactly for a tristate symbol, and as far as being n goes for the others; properties of other menu nodes stay; a select or imply is chained into the reverse dependency of its target |
| `KconfigPropagate.PropagateChildren` | src/omnia-ng/openwrt/package/kernel/mac80211/src/kconf/menu.c:343-416 | The loops over the children of a menu node and their properties: that holds of every one, the results are again of the form the next level down needs, and every reverse dependency has become the maximum of itself and what the children select or imply |
| `KconfigTree.Finalize` | src/omnia-ng/openwrt/package/kernel/mac80211/src/kconf/menu.c:303-424 | The recursion over a tree of menus, ifs, choices and symbols: at every node the dependency is the minimum of its own and of what is handed down, and so are the conditions of its properties; the reverse dependencies have grown by what is selected and implied anywhere below |
| `KconfigTree.HandedOn` | src/omnia-ng/openwrt/package/kernel/mac80211/src/kconf/menu.c:329-341 | What is handed down is the minimum of all dependencies and prompt conditions above, m read as m && MODULES, up to the innermost choice, which stands for itself |
| `KconfigTree.EveryNode` | src/omnia-ng/openwrt/package/kernel/mac80211/src/kconf/menu.c:343-424 | Wherever a node is in the tree, its dependency ends up as that minimum |
| `KconfigTree.VisibilityAfter` | src/omnia-ng/openwrt/package/kernel/mac80211/src/kconf/symbol.c:209-239 | A symbol, defined at any number of menu nodes, is visible exactly as far as the largest of its prompts' bounds in the tree as parsed, m promoted to y where it cannot be m: expr_trans_bool has not changed that |
| `KconfigTree.VisibilityMeans` | src/omnia-ng/openwrt/package/kernel/mac80211/src/kconf/symbol.c:221-235 | The visibility is the largest prompt condition, but never m for a symbol that cannot be m |
| `KconfigTree.FinalizeRoot` | src/omnia-ng/openwrt/package/kernel/mac80211/src/kconf/menu.c:403-413 | From the main menu: a symbol is selected or implied as far as the largest bound of the properties that do so anywhere in the tree, a symbol pulling no further than its own value; exactly if only tristate symbols have such properties, and as far as being n goes otherwise |
| `KconfigSubmenu.NotContained` | src/omnia-ng/openwrt/package/kernel/mac80211/src/kconf/expr.c:843-869 | An expression for which expr_contains_symbol says no has the same value whatever the symbol's value |
| `KconfigFinds.ContainsIff` | src/omnia-ng/openwrt/package/kernel/mac80211/src/kconf/expr.c:843-869 | expr_contains_symbol says yes exactly if the symbol occurs |
| `KconfigSubmenu.DependsMeans` | src/omnia-ng/openwrt/package/kernel/mac80211/src/kconf/expr.c:871-898 | An expression for which expr_depends_symbol says yes is n whenever the bool or tristate symbol is |
| `KconfigFinds.DependsIff` | src/omnia-ng/openwrt/package/kernel/mac80211/src/kconf/expr.c:871-898 | expr_depends_symbol says yes exactly if an operand of the outermost && is the symbol, or its being y, m or not n |
| `KconfigSubmenu.Simplify` | src/omnia-ng/openwrt/package/kernel/mac80211/src/kconf/menu.c:448-450 | expr_trans_compare, expr_transform and expr_eliminate_dups together give the test against n, wherever that is exact |
| `KconfigSubmenu.Belongs` | src/omnia-ng/openwrt/package/kernel/mac80211/src/kconf/menu.c:455-483 | An entry is put below a symbol exactly if its condition contains it and depends on it absolutely or uses up the test of the symbol's prompt condition; its condition is then n whenever the symbol is, or whenever the symbol's prompt condition is |
| `MenuFinalize.Menus.Finalize` | src/omnia-ng/openwrt/package/kernel/mac80211/src/kconf/menu.c:296-577 | Whatever the dependency tests answer: afterwards the pointers spell exactly the specified tree, with the same pre-order sequence of nodes and the right parent in every node, and nothing outside was written |
| `MenuFinalize.Menus.FinalizeChildren` | src/omnia-ng/openwrt/package/kernel/mac80211/src/kconf/menu.c:423-424 | The same for the loop over the children, whose `next` pointers change under it |
| `MenuFinalize.Menus.Absorb` | src/omnia-ng/openwrt/package/kernel/mac80211/src/kconf/menu.c:452-494 | The children are exactly the longest run of later siblings that pass the test, in order, each finalised first |
| `MenuFinalize.Menus.Flatten` | src/omnia-ng/openwrt/package/kernel/mac80211/src/kconf/menu.c:498-577 | A child with prompt text keeps its children; those of one without follow it on its level, in order, and are looked at next |
| `MenuShape.LevelGreedy` | src/omnia-ng/openwrt/package/kernel/mac80211/src/kconf/menu.c:423-494 | Which siblings go below which symbol: a symbol without children gets siblings that pass its test, its next sibling fails it, all other nodes have below them what they had, and the order stays |
| `MenuShape.ParentIsTextAbove` | src/omnia-ng/openwrt/package/kernel/mac80211/src/kconf/menu.c:567-576 | After flattening every node is a child of the nearest node above it that has a prompt text |
| `MenuShape.FlatKidsFlat` | src/omnia-ng/openwrt/package/kernel/mac80211/src/kconf/menu.c:567-576 | No node without prompt text keeps children |
| `MenuFinalize.Menus.Adopt` | src/omnia-ng/openwrt/package/kernel/mac80211/src/kconf/menu.c:567-572 | All children get the new parent and the last one is found |
| `MenuFinalize.NextNode` | src/omnia-ng/openwrt/package/kernel/mac80211/src/kconf/confdata.c:810-822 | One step of the walk goes to the next node in pre-order, or to null after the last |
| `MenuFinalize.Walk` | src/omnia-ng/openwrt/package/kernel/mac80211/src/kconf/confdata.c:790-823 | The pointer walk visits every node below the root in pre-order and stops |
| `MenuFinalize.FinalizeAndWalk` | src/omnia-ng/openwrt/package/kernel/mac80211/src/kconf/zconf.y:553-553 | Finalising and then walking yields every node exactly once, in the order of declaration; the parent of each is the nearest node with prompt text above it among the automatic submenus, or the root |
| `SymDeps.DepChecker.CheckDeps` | src/omnia-ng/openwrt/package/kernel/mac80211/src/kconf/symbol.c:1312-1344 | Keeps the marks in step with the stack; a symbol it returns is on the stack and was reported; without a report the symbol comes after everything it depends on in a dependency order |
| `SymDeps.DepChecker.CheckSym` | src/omnia-ng/openwrt/package/kernel/mac80211/src/kconf/symbol.c:1241-1273 | Reverse dependencies, conditions and defaults are examined in turn, and the stack entry names the reason |
| `SymDeps.DepChecker.CheckExpr` | src/omnia-ng/openwrt/package/kernel/mac80211/src/kconf/symbol.c:1206-1238 | Every symbol of the expression is examined unless a cycle was reported |
| `SymDeps.DepChecker.Report` | src/omnia-ng/openwrt/package/kernel/mac80211/src/kconf/symbol.c:1128-1204 | The printed part of the stack is a genuine cycle through the symbol; the branch for an unexpected error is never taken |
| `SymDeps.SortedHasNoCycle` | src/omnia-ng/openwrt/package/kernel/mac80211/src/kconf/symbol.c:1312-1344 | A dependency order of the symbols excludes every cycle through them |
| `SymDeps.CheckAll` | src/omnia-ng/openwrt/package/kernel/mac80211/src/kconf/zconf.y:554-557 | A report is issued if and only if the graph of reverse dependencies, conditions and defaults has a cycle; every report is a genuine cycle with its genuine reasons; the error counter stays 0 in either case |
| `ConfigText.UnescapeUndoes` | src/omnia-ng/openwrt/package/kernel/mac80211/src/kconf/confdata.c:162-175 | Reading a quoted string undoes escaping, whatever text follows |
| `ConfigText.LineRoundTrip` | src/omnia-ng/openwrt/package/kernel/mac80211/src/kconf/confdata.c:487-508 | The printed line of a symbol gives it back its value: n, m, y, every valid number, every string without line end or NUL |
| `ConfigText.FileRoundTrip` | src/omnia-ng/openwrt/package/kernel/mac80211/src/kconf/confdata.c:790-808 | A file of any number of symbols and menu headings gives the same settings back, in order, with nothing set besides, if and only if all headings are harmless |
| `ConfigText.FileReads` | src/omnia-ng/openwrt/package/kernel/mac80211/src/kconf/confdata.c:790-808 | Whatever the headings are: exactly the settings and what the other headings are taken for, in order |
| `ConfigText.HeadingUnsets` | src/omnia-ng/openwrt/package/kernel/mac80211/src/kconf/confdata.c:316-335 | A symbol that is y and a menu behind it whose name makes the symbol n when the file is read back |
| `ConfigText.HarmlessIff` | src/omnia-ng/openwrt/package/kernel/mac80211/src/kconf/confdata.c:316-324 | A heading is not read as a setting if and only if its text does not start like the line of an unset bool or tristate symbol |
| `ConfigBuffer.EscapedSize` | src/omnia-ng/openwrt/package/kernel/mac80211/src/kconf/symbol.c:969-981 | The computed buffer size is exactly the length of the quoted string and its NUL |
| `ConfigBuffer.EscapeStringValue` | src/omnia-ng/openwrt/package/kernel/mac80211/src/kconf/symbol.c:962-1003 | The buffer is filled exactly with the quoted string and its NUL, without a write outside |
| `ConfigBuffer.UnescapeInPlace` | src/omnia-ng/openwrt/package/kernel/mac80211/src/kconf/confdata.c:164-170 | The loop of strpbrk and memmove leaves the unescaped text as a C string at its place, and fails exactly when the closing quote is missing |
| `ConfigBuffer.IntValid` | src/omnia-ng/openwrt/package/kernel/mac80211/src/kconf/symbol.c:598-610 | Accepts exactly an optional minus and digits without a leading zero |
| `ConfigBuffer.HexValid` | src/omnia-ng/openwrt/package/kernel/mac80211/src/kconf/symbol.c:611-619 | Accepts exactly hexadecimal digits, with or without prefix |
| `ConfigFile.ConfSetSymVal` | src/omnia-ng/openwrt/package/kernel/mac80211/src/kconf/confdata.c:126-194 | The in-place code sets what the reading function says, the change of type included, and returns 1 exactly when the text is refused, for every symbol type; something is set exactly when nothing was refused, two silent cases apart |
| `ConfigFile.LineReader.AddByte` | src/omnia-ng/openwrt/package/kernel/mac80211/src/kconf/confdata.c:196-215 | The byte is stored, the text before it survives the growth of the buffer |
| `ConfigFile.LineReader.GetLine` | src/omnia-ng/openwrt/package/kernel/mac80211/src/kconf/confdata.c:217-249 | The next line with its line end and a NUL, or -1 exactly at the end of the file |
| `ConfigFile.HandleLine` | src/omnia-ng/openwrt/package/kernel/mac80211/src/kconf/confdata.c:313-381 | One line handled in place has the effect the reading function gives it; a lone "#" has that of what the buffer holds behind it, and none is stated exactly when that text has no end |
| `ConfigFile.ReadFile` | src/omnia-ng/openwrt/package/kernel/mac80211/src/kconf/confdata.c:313-381 | The loop over a file has, in order, exactly the effects the reading function gives its lines, whatever is in them, a lone "#" apart |
| `ConfigFile.LoneHash` | src/omnia-ng/openwrt/package/kernel/mac80211/src/kconf/confdata.c:313-317 | Only the last line of a file can be a lone "#", unless the file has a NUL in it |
| `ConfigFile.WriteAndRead` | src/omnia-ng/openwrt/package/kernel/mac80211/src/kconf/confdata.c:790-808 | What is written for any list of symbols and headings is read back through the line buffer as the same settings in order and what the headings are taken for, and as the settings alone if and only if all headings are harmless |
| `CodelArith.WindowExact` | src/omnia-ng/openwrt/package/kernel/mac80211/src/include/net/codel.h:76-86 | The wrapped comparison with the end of a window of length interval means, for every pair of times, that more than interval has passed, if and only if interval is at most 2^31 |
| `CodelArith.TargetExact` | src/omnia-ng/openwrt/package/kernel/mac80211/src/include/net/codel.h:76-86 | The comparison of the sojourn time with target means what it is for, for every sojourn time, if and only if target is below 2^31 |
| `CodelArith.Cubic` | src/omnia-ng/openwrt/package/kernel/mac80211/src/include/net/codel_impl.h:80-90 | x(3 - x)^2 <= 4 for 0 <= x <= 4, scaled: the fact behind the invariant |
| `CodelArith.StepKeepsBound` | src/omnia-ng/openwrt/package/kernel/mac80211/src/include/net/codel_impl.h:80-90 | A Newton step rounded down keeps count * rec^2 <= 2^32 |
| `CodelArith.NewtonStepExact` | src/omnia-ng/openwrt/package/kernel/mac80211/src/include/net/codel_impl.h:80-90 | From any admissible state no intermediate value of the step is cut: the subtraction does not go below zero, the result fits 16 bits and satisfies count * rec^2 <= 2^32 |
| `CodelArith.SpacingBound` | src/omnia-ng/openwrt/package/kernel/mac80211/src/include/net/codel_impl.h:97-102 | The distance to the next drop is at most interval / sqrt(count) |
| `CodelArith.FreshPace` | src/omnia-ng/openwrt/package/kernel/mac80211/src/include/net/codel_impl.h:79-98 | Up to four million drops after a fresh start the reciprocal root stays between a quarter of 1 / sqrt(count) and the whole of it |
| `CodelArith.SpacingFloor` | src/omnia-ng/openwrt/package/kernel/mac80211/src/include/net/codel_impl.h:97-102 | With such a root the next drop is not scheduled earlier than a quarter of interval / sqrt(count), less one |
| `Codel.IncrementPaced` | src/omnia-ng/openwrt/package/kernel/mac80211/src/include/net/codel_impl.h:182-185 | The invariant of count and reciprocal root survives one more drop, wrap-around of the 32-bit counter included |
| `Codel.ResumePaced` | src/omnia-ng/openwrt/package/kernel/mac80211/src/include/net/codel_impl.h:234-243 | It survives the return to the dropping state at the earlier rate |
| `Codel.PutOffFresh` | src/omnia-ng/openwrt/package/kernel/mac80211/src/include/net/codel_impl.h:180-212 | The spacing of drops lies between those bounds after any number of drops up to that since a fresh start |
| `Codel.ResumesMeans` | src/omnia-ng/openwrt/package/kernel/mac80211/src/include/net/codel_impl.h:234-237 | On an unwrapped clock the earlier rate is resumed exactly if more than one drop was made and less than 16 intervals have passed since the next was due |
| `CodelExam.ExamStep` | src/omnia-ng/openwrt/package/kernel/mac80211/src/include/net/codel_impl.h:104-144 | codel_should_drop says yes only at the end of a stretch longer than interval in which no examined packet was below target or seen with at most one MTU queued |
| `CodelExam.OkIff` | src/omnia-ng/openwrt/package/kernel/mac80211/src/include/net/codel_impl.h:104-144 | For any sequence of examinations codel_should_drop says yes at the last exactly if it is above target and a window that the stretch above target opened has been over for less than 2^31 |
| `CodelExam.PersistentIsOk` | src/omnia-ng/openwrt/package/kernel/mac80211/src/include/net/codel_impl.h:104-144 | So it says yes when everything has been above target for more than interval |
| `CodelExam.MissedWindow` | src/omnia-ng/openwrt/package/kernel/mac80211/src/include/net/codel_impl.h:132-138 | Two examinations more than interval apart, above target, for which it says no: the window would end at a multiple of 2^32 |
| `Codel.PersistentActs` | src/omnia-ng/openwrt/package/kernel/mac80211/src/include/net/codel_impl.h:146-251 | When the queue has been above target for more than interval, codel_dequeue marks or drops the first packet, unless the next drop is not due yet in the dropping state, and is in the dropping state afterwards if it was not before |
| `Codel.BelowRests` | src/omnia-ng/openwrt/package/kernel/mac80211/src/include/net/codel_impl.h:165-171 | When the first packet is not above target it drops and marks nothing and leaves the dropping state |
| `Codel.CountersAreTotals` | src/omnia-ng/openwrt/package/kernel/mac80211/src/include/net/codel_impl.h:194-196 | drop_count and drop_len are the number and the bytes of the packets dropped, modulo 2^32 |
| `Codel.Queue.ShouldDrop` | src/omnia-ng/openwrt/package/kernel/mac80211/src/include/net/codel_impl.h:104-144 | The new window, delay and statistics, and the justification of a yes |
| `Codel.Queue.DropWhileDue` | src/omnia-ng/openwrt/package/kernel/mac80211/src/include/net/codel_impl.h:180-212 | The loop ends; the packets leave in FIFO order, each dropped one justified and none of them markable; if the next drop is due the first packet is marked or dropped, and it goes on until the next drop is not due, a packet was marked, or codel_should_drop says no, which alone ends the dropping state; each drop or mark raises the count by one and puts the next drop off by exactly the control law, at most interval / sqrt(count) |
| `Codel.Queue.EnterDropping` | src/omnia-ng/openwrt/package/kernel/mac80211/src/include/net/codel_impl.h:229-250 | The count and the reciprocal root to start with, afresh or at the earlier rate, and the next drop time |
| `Codel.Queue.MarkAboveThreshold` | src/omnia-ng/openwrt/package/kernel/mac80211/src/include/net/codel_impl.h:253-265 | Exactly the selected packets above the threshold are marked and counted |
| `Codel.MarkCanDeselect` | src/omnia-ng/openwrt/package/kernel/mac80211/src/include/net/codel_impl.h:253-265 | A packet that is selected for the threshold mark and no longer is once it has been marked: the DS byte is read with the mark |
| `Codel.MarkMeans` | src/omnia-ng/openwrt/package/kernel/mac80211/src/include/net/codel_impl.h:191-192 | A mark sets the two ECN bits of the DS byte and leaves the others |
| `Codel.SelectedMeans` | src/omnia-ng/openwrt/package/kernel/mac80211/src/include/net/codel_impl.h:256-262 | Which packets the mask and selector pick, bit by bit |
| `Codel.Queue.Dequeue` | src/omnia-ng/openwrt/package/kernel/mac80211/src/include/net/codel_impl.h:146-267 | It ends; what was queued is the dropped packets, then the one handed out, then the rest; exactly these packets were examined, in turn; exactly if codel_should_drop says yes for the first, and the next drop is due if the queue was in the dropping state, that packet is marked or dropped; the dropping state follows the answers; counters match the drops and marks, the threshold being judged on the packet as marked before; every drop ever made is justified; and it is stated exactly when the next drop is due |
| `FqState.EmptyIffZero` | src/omnia-ng/openwrt/package/kernel/mac80211/src/include/net/fq_impl.h:16-38 | The packet and the memory counter are zero exactly when no queue holds a packet |
| `FqState.TinEmptyIffZero` | src/omnia-ng/openwrt/package/kernel/mac80211/src/include/net/fq_impl.h:329-332 | The same for the two counters of a tin |
| `FqSteps.ShrinkValid` | src/omnia-ng/openwrt/package/kernel/mac80211/src/include/net/fq_impl.h:15-38 | Taking packets out of a queue keeps the whole invariant, and no counter goes below zero |
| `FqSteps.MemoryBoundsAll` | src/omnia-ng/openwrt/package/kernel/mac80211/src/include/net/fq_impl.h:218-226 | If the memory counter does not wrap, no other counter does |
| `FqSteps.AdmitValid` | src/omnia-ng/openwrt/package/kernel/mac80211/src/include/net/fq_impl.h:210-232 | Putting packets into a flow keeps the whole invariant |
| `FqSchedule.EveryTurnCounts` | src/omnia-ng/openwrt/package/kernel/mac80211/src/include/net/fq_impl.h:98-128 | Every turn of fq_tin_dequeue that hands out nothing lowers a measure, for any deficits |
| `FqFair.DeficitRange` | src/omnia-ng/openwrt/package/kernel/mac80211/src/include/net/fq_impl.h:110-130 | The deficit of a linked flow stays above minus the largest packet and at most one quantum |
| `FqFair.ReplenishKeepsPace` | src/omnia-ng/openwrt/package/kernel/mac80211/src/include/net/fq_impl.h:110-114 | The balance of replenishments of two flows follows their order in the list: they alternate |
| `FqFair.RunKeepsPace` | src/omnia-ng/openwrt/package/kernel/mac80211/src/include/net/fq_impl.h:90-135 | The balance holds over any stretch of a sequence of operations |
| `FqFair.Fairness` | src/omnia-ng/openwrt/package/kernel/mac80211/src/include/net/fq_impl.h:90-135 | Over any stretch of any sequence of operations in which two flows stay backlogged among the old flows of a tin, the bytes sent from them differ by less than 3 quantum + 2 maxLen |
| `FqStarve.NoStarvation` | src/omnia-ng/openwrt/package/kernel/mac80211/src/include/net/fq_impl.h:118-124 | Over any stretch of any run in which a flow stays backlogged among the old flows of a tin, no other flow, not even one that becomes new over and over, is given more for that tin than twice what that flow is given and 5 quantum + 3 maxLen |
| `Fq.TakePending` | src/omnia-ng/openwrt/package/kernel/mac80211/src/include/net/fq_impl.h:73-83 | The do-while takes half of the queue, at most 32 packets, at least one if there is one, and sums them up |
| `Fq.FlowIndexInRange` | src/omnia-ng/openwrt/package/kernel/mac80211/src/include/net/fq_impl.h:137-142 | The scaled hash is always the index of a flow |
| `Fq.FlowIndexShares` | src/omnia-ng/openwrt/package/kernel/mac80211/src/include/net/fq_impl.h:137-142 | Every flow gets its equal share of the hashes, in order |
| `Fq.FlowIndexOnto` | src/omnia-ng/openwrt/package/kernel/mac80211/src/include/net/fq_impl.h:137-142 | No flow is left out |
| `Fq.LastFlowGone` | src/omnia-ng/openwrt/package/kernel/mac80211/src/include/net/fq_impl.h:301-303 | When a tin has lost its last flow it is already off the backlog list |
| `Fq.Scheduler.FlowDequeue` | src/omnia-ng/openwrt/package/kernel/mac80211/src/include/net/fq_impl.h:47-61 | The head packet, with every counter and index adjusted, or nothing when the queue is empty |
| `Fq.Scheduler.FlowDrop` | src/omnia-ng/openwrt/package/kernel/mac80211/src/include/net/fq_impl.h:63-88 | Exactly the first packets go, with every counter and index adjusted |
| `Fq.Scheduler.FindFattest` | src/omnia-ng/openwrt/package/kernel/mac80211/src/include/net/fq_impl.h:165-195 | A flow of maximal backlog among all flows, none exactly when all are empty |
| `Fq.Scheduler.TinDequeue` | src/omnia-ng/openwrt/package/kernel/mac80211/src/include/net/fq_impl.h:90-135 | It ends, returns nothing exactly when the tin holds no packets, and otherwise the head packet of one of its flows, in order, the flow being the one the deficit round robin comes to; the invariant and the pace of fairness are kept |
| `Fq.DequeuedCounts` | src/omnia-ng/openwrt/package/kernel/mac80211/src/include/net/fq_impl.h:130-132 | tx_bytes and tx_packets count the packets handed out; no other tin and none of its flows is touched |
| `Fq.Scheduler.Classify` | src/omnia-ng/openwrt/package/kernel/mac80211/src/include/net/fq_impl.h:144-163 | The chosen flow is free or owned by the tin; collisions and flows are counted |
| `Fq.Scheduler.DropOverload` | src/omnia-ng/openwrt/package/kernel/mac80211/src/include/net/fq_impl.h:234-249 | The loop ends with backlog and memory within their limits; each of its turns starts outside a limit and takes from the fattest flow, from the head, at most half, at most 32 packets and at least one, and is counted; nothing happens if there was no overload; its early returns are unreachable |
| `FqOverload.RelievedFromFattest` | src/omnia-ng/openwrt/package/kernel/mac80211/src/include/net/fq_impl.h:165-249 | A flow that lost packets was at least as fat as any flow is in the end |
| `FqOverload.RelievedBarely` | src/omnia-ng/openwrt/package/kernel/mac80211/src/include/net/fq_impl.h:234-249 | Nothing is dropped that need not be: before the last turn a limit was still exceeded |
| `FqOverload.DropCountMeans` | src/omnia-ng/openwrt/package/kernel/mac80211/src/include/net/fq_impl.h:70-83 | How many packets one drop takes: the largest number that is at most half of the queue and at most 32, or one |
| `Fq.Scheduler.TinEnqueue` | src/omnia-ng/openwrt/package/kernel/mac80211/src/include/net/fq_impl.h:197-250 | All packets go to the chosen flow in order, then only what the overload loop takes is dropped, from heads, and only from flows that were, with what arrived, at least as fat as any flow is in the end; limits hold on exit; nothing is lost if the limits allow; a flow that no tin owned becomes the last new flow with a full quantum, and nothing else in the schedule moves |
| `Fq.Scheduler.FlowFilter` | src/omnia-ng/openwrt/package/kernel/mac80211/src/include/net/fq_impl.h:252-271 | The queue is exactly what the filter keeps, in order |
| `Fq.Scheduler.TinFilter` | src/omnia-ng/openwrt/package/kernel/mac80211/src/include/net/fq_impl.h:273-287 | Every flow of the tin is filtered, no other flow is touched |
| `Fq.Scheduler.FlowReset` | src/omnia-ng/openwrt/package/kernel/mac80211/src/include/net/fq_impl.h:289-309 | The flow is empty, unlinked and free, nothing changes if it was, and no other flow does; only its tin is touched; its WARN cannot fire |
| `Fq.Scheduler.Reset` | src/omnia-ng/openwrt/package/kernel/mac80211/src/include/net/fq_impl.h:379-392 | The loop of fq_reset leaves every hashed flow empty and free and the default flows of the tins as they are |
| `Fq.ResetEmpties` | src/omnia-ng/openwrt/package/kernel/mac80211/src/include/net/fq_impl.h:379-392 | After it the packet and the memory counter are zero exactly if no default flow was backlogged |
| `Fq.Scheduler.TinReset` | src/omnia-ng/openwrt/package/kernel/mac80211/src/include/net/fq_impl.h:311-333 | It ends, and none of its three WARNs can fire |
| `Fq.Scheduler.Run` | src/omnia-ng/openwrt/package/kernel/mac80211/src/include/net/fq_impl.h:15-333 | Over any sequence of operations each does what it promises, all counters equal the sums over the actual queues and both indexes hold exactly the backlogged flows; the ledger is the bytes of the packets handed out; and over every stretch of the run, for every two flows that stay backlogged among the old flows of a tin during it, the bytes handed out from them differ by less than 3 quantum + 2 maxLen |
| `Fq.FairRun` | src/omnia-ng/openwrt/package/kernel/mac80211/src/include/net/fq_impl.h:90-135 | The same bound as a statement about the packets handed out in any stretch of any recorded run |
| `Fq.RunFresh` | src/omnia-ng/openwrt/package/kernel/mac80211/src/include/net/fq_impl.h:349-377 | With the parameters of fq_init: in every run from the empty scheduler, over every stretch, less than 900 + 2 maxLen bytes |
| `FqExample.ContentionArises` | src/omnia-ng/openwrt/package/kernel/mac80211/src/include/net/fq_impl.h:90-135 | In every run of seven given operations from the empty scheduler two flows contend before and after the last, which hands out 300 bytes of one of them: the bound is about something |
| `FqExample.Contention` | src/omnia-ng/openwrt/package/kernel/mac80211/src/include/net/fq_impl.h:349-377 | Such a run is performed by the operations themselves |
| `Pkcs7.Message.FindIssuer` | src/omnia-ng/openwrt/package/kernel/mac80211/src/compat/verification/pkcs7_verify.c:245-268 | The first certificate of the list that matches the issuer the certificate names |
| `Pkcs7.Message.ChainStep` | src/omnia-ng/openwrt/package/kernel/mac80211/src/compat/verification/pkcs7_verify.c:206-301 | One turn: the next certificate, checked and not seen, or the end with its reason |
| `Pkcs7Chains.BackedMeans` | src/omnia-ng/openwrt/package/kernel/mac80211/src/compat/verification/pkcs7_verify.c:245-292 | What stands behind a link: the issuer fits the serial and the subject key id that the certificate names, as far as it names them, is the first that fits, and its key verified the signature |
| `Pkcs7.Message.VerifySigChain` | src/omnia-ng/openwrt/package/kernel/mac80211/src/compat/verification/pkcs7_verify.c:193-311 | It ends on every list, cyclic issuer references included; the way it went is a chain of signer links, each backed by the named issuer and a successful signature check; it tells why it stopped; a blacklisted certificate blacklists the whole chain and nothing else; no other link changes |
| `Pkcs7Chains.WalkMeetsBlack` | src/omnia-ng/openwrt/package/kernel/mac80211/src/compat/verification/pkcs7_verify.c:206-301 | The walk stops at a blacklisted certificate if and only if checked issuers lead from its start to one |
| `Pkcs7Chains.LeadsSame` | src/omnia-ng/openwrt/package/kernel/mac80211/src/compat/verification/pkcs7_verify.c:216-218 | The marks made on the way do not change which certificates lead to a blacklisted one |
| `Pkcs7.Message.VerifyOne` | src/omnia-ng/openwrt/package/kernel/mac80211/src/compat/verification/pkcs7_verify.c:316-362 | The signer is the first certificate the info names; the answer, decided before the walk, by a blacklisted certificate on it, or by where checked issuers lead to; the info is blacklisted if and only if it was examined and checked issuers lead from its certificate to a blacklisted one |
| `Pkcs7.Message.Verify` | src/omnia-ng/openwrt/package/kernel/mac80211/src/compat/verification/pkcs7_verify.c:441-460 | All links are backed; of every info looked at the signer, the mark and the answer are known; on success every info was checked or set aside for lack of crypto; the answers combine in the documented order of priority |
| `Pkcs7.Message.MarkVerified` | src/omnia-ng/openwrt/package/kernel/mac80211/src/compat/verification/pkcs7_trust.c:124-129 | Exactly the certificates from the signer up to the trusted one are marked |
| `Pkcs7.Message.ClimbSigners` | src/omnia-ng/openwrt/package/kernel/mac80211/src/compat/verification/pkcs7_trust.c:38-76 | The climb ends, cyclic signer links included, exactly where its specification says: at a match, at a cached answer, in a failure, or at the top |
| `Pkcs7.Message.TrustOne` | src/omnia-ng/openwrt/package/kernel/mac80211/src/compat/verification/pkcs7_trust.c:22-132 | The exact answer, acceptance and every rejection, and the exact marks left behind; acceptance means a keyring key verified the info or a certificate its signer reaches; rejection marks nothing as verified |
| `Pkcs7.Message.ValidateTrust` | src/omnia-ng/openwrt/package/kernel/mac80211/src/compat/verification/pkcs7_trust.c:158-187 | Every certificate marked verified reaches, by signer links, one at which a keyring key verified a signature; the exact single answers, each info finding the marks the one before it left, combined as documented |
| `Pkcs7.VerifyAndTrust` | src/omnia-ng/openwrt/package/kernel/mac80211/src/compat/verification/pkcs7_trust.c:158-187 | If verification and trust validation of a fresh message both succeed, some signed info is accepted; an accepted one was verified by a keyring key, or its certificate verified it with a chain of checked signatures to a certificate at which a keyring key verified one; and it is blacklisted if and only if checked issuers lead from its certificate to a blacklisted one |
| `Pkcs7.BlacklistedAccepted` | src/omnia-ng/openwrt/package/kernel/mac80211/src/compat/verification/pkcs7_trust.c:158-187 | A message for which both succeed although the one accepted info is blacklisted |
| `Pkcs7Chains.DirectAccepted` | src/omnia-ng/openwrt/package/kernel/mac80211/src/compat/verification/pkcs7_trust.c:22-132 | An info that a keyring key verifies directly is accepted if and only if the climb ends at a certificate that is trusted already or whose key verifies, or at a top whose signer the keyring does not know or has a key of that verifies |
| `Pkcs7.DirectRefused` | src/omnia-ng/openwrt/package/kernel/mac80211/src/compat/verification/pkcs7_trust.c:158-187 | A message with two infos that a keyring key verifies directly, of which the first is accepted for that and the second refused with -ENOKEY |
| `Netlink.UnionStream` | src/omnia-ng/openwrt/package/kernel/mac80211/src/compat/backport-5.2.c:357-401 | A stream is accepted under the union of two flag sets exactly when it is accepted under each, through all nesting |
| `Netlink.UnionAttribute` | src/omnia-ng/openwrt/package/kernel/mac80211/src/compat/backport-5.2.c:157-355 | The same for one attribute, with the types from which everything is strict |
| `Netlink.UnionElements` | src/omnia-ng/openwrt/package/kernel/mac80211/src/compat/backport-5.2.c:70-97 | The same for nested arrays |
| `Netlink.Monotone` | src/omnia-ng/openwrt/package/kernel/mac80211/src/compat/backport-5.2.c:357-401 | What is accepted under a flag set is accepted under every subset |
| `Netlink.AcceptedMeans` | src/omnia-ng/openwrt/package/kernel/mac80211/src/compat/backport-5.2.c:357-401 | A stream is accepted exactly when each attribute is and, under the trailing flag, nothing is left over |
| `Netlink.ValidateParse` | src/omnia-ng/openwrt/package/kernel/mac80211/src/compat/backport-5.2.c:357-401 | It ends, self-referential policies included, with the answer of the specification; on success tb[t] is the last attribute of type t, or empty if there is none |
| `Netlink.ValidateArray` | src/omnia-ng/openwrt/package/kernel/mac80211/src/compat/backport-5.2.c:70-97 | The loop over the elements gives the answer of the specification |
| `Netlink.ValidateAttribute` | src/omnia-ng/openwrt/package/kernel/mac80211/src/compat/backport-5.2.c:157-355 | The checks on one attribute, in order, give the answer of the specification, which accepts exactly what conforms (`NetlinkPolicy.AttributeIff`) |
| `NetlinkPolicy.StreamIff` | src/omnia-ng/openwrt/package/kernel/mac80211/src/compat/backport-5.2.c:357-401 | A stream is accepted exactly if at every depth each attribute of a known type meets its policy entry, stated without the checks, unknown ones appear only where allowed, and nothing is left over where that is demanded |
| `NetlinkPolicy.AttributeIff` | src/omnia-ng/openwrt/package/kernel/mac80211/src/compat/backport-5.2.c:157-355 | One attribute is accepted exactly if it has the length, the NUL, the bits, the bounds and the nesting bit that its policy entry and the flags demand, and what is inside it conforms |
| `NetlinkPolicy.ArrayIff` | src/omnia-ng/openwrt/package/kernel/mac80211/src/compat/backport-5.2.c:70-97 | A nested array is accepted exactly if every element is empty or a conforming stream |
| `NetlinkPolicy.IntegerAccepted` | src/omnia-ng/openwrt/package/kernel/mac80211/src/compat/backport-5.2.c:99-155 | An integer attribute with a value of its type is accepted if the value is within the bounds of a range, minimum or maximum policy, and answered with -ERANGE otherwise |
| `NetlinkPolicy.BitfieldIff` | src/omnia-ng/openwrt/package/kernel/mac80211/src/compat/backport-5.2.c:48-68 | A bitfield is accepted exactly if every bit set is selected and every bit selected is valid |
| `NetlinkPolicy.PutAllIsRead` | src/omnia-ng/openwrt/package/kernel/mac80211/src/compat/backport-5.2.c:366-388 | The walk over a stream comes to exactly the attributes that were written, in order, and to its end |
| `MulDiv.SplitQuotient` | src/omnia-ng/openwrt/package/kernel/mac80211/src/compat/backport-5.9.c:15-31 | (b a) / c == (b / c) a + (b % c) a / c in whole numbers, the identity the code relies on |
| `MulDiv.ShiftDefined` | src/omnia-ng/openwrt/package/kernel/mac80211/src/compat/backport-5.9.c:33-37 | The shift count is at most 64, and below 64 if and only if the factor and the remainder do not both have their top bit set |
| `MulDiv.FullWidthShift` | src/omnia-ng/openwrt/package/kernel/mac80211/src/compat/backport-5.9.c:33-37 | Operands for which the shift count is 64 |
| `MulDiv.FinalProductFits` | src/omnia-ng/openwrt/package/kernel/mac80211/src/compat/backport-5.9.c:43-43 | Whenever the shift count is below 64 the product of the last line does not overflow |
| `MulDiv.FinalProductOverflows` | src/omnia-ng/openwrt/package/kernel/mac80211/src/compat/backport-5.9.c:43-43 | With a shift count of 64 and a machine that takes it modulo 64, it does overflow |
| `MulDiv.ExactUnlessShifted` | src/omnia-ng/openwrt/package/kernel/mac80211/src/compat/backport-5.9.c:7-44 | When no bits are dropped the result is the exact quotient modulo 2^64 |
| `MulDiv.ExactQuotient` | src/omnia-ng/openwrt/package/kernel/mac80211/src/compat/backport-5.9.c:7-44 | When no bits are dropped and the quotient fits, the result is floor(a b / c) |
| `MulDiv.ApproximateWhenShifted` | src/omnia-ng/openwrt/package/kernel/mac80211/src/compat/backport-5.9.c:33-43 | When bits are dropped the result is a known approximation modulo 2^64 |
| `MulDiv.ApproximationError` | src/omnia-ng/openwrt/package/kernel/mac80211/src/compat/backport-5.9.c:33-43 | That approximation is within a / (c >> shift) + 1 of the exact quotient, and below it by at most a when nothing is left of the divisor |
| `MulDiv.ErrorWhenShifted` | src/omnia-ng/openwrt/package/kernel/mac80211/src/compat/backport-5.9.c:7-44 | When bits are dropped, something is left of the divisor and the sum fits, the result itself is within a / (c >> shift) + 1 of a b / c |
| `MulDiv.SumFits` | src/omnia-ng/openwrt/package/kernel/mac80211/src/compat/backport-5.9.c:43-43 | The sum fits whenever the exact quotient is that far below 2^64 |
| `MulDiv.ResultWhenShifted` | src/omnia-ng/openwrt/package/kernel/mac80211/src/compat/backport-5.9.c:7-44 | Without that condition the result is the remainder modulo 2^64 of a number that near to a b / c |

## Left out

- KconfigTree.Finalize: menu nodes and reverse dependencies are values handed back, not updated in place; choices hand down their symbol as in the source, but the types and the list of choice values are taken as given, and automatic submenus are in MenuFinalize and KconfigSubmenu.
- KconfigTree.VisibilityAfter: a choice value that is m is also hidden while its choice is y, which is not modelled.
- KconfigDups.EliminateDups1: slots are paths into one tree value; sharing of nodes between different expressions, copying and freeing are not modelled.
- KconfigSubmenu.Belongs: says what a yes implies under assignments for which the tests against n are exact; that more entries could be put below a symbol is not claimed.
- MenuFinalize.Menus.Finalize: the answer of the dependency tests is an arbitrary function of the two nodes; the bookkeeping for choice values, warnings and reverse dependencies of choices in the same function is not modelled.
- SymDeps.CheckAll: no choice groups (sym_check_choice_deps); file names and line numbers of the report are not modelled.
- ConfigFile.ReadFile: of a line that is only "#" the source reads leftovers in its buffer, or beyond it (`ConfigFile.HandleLine`); which text that is depends on the lines before and is not stated for the file; the reading of auto.conf (`def` other than the user's), the state of choices and all warnings are not modelled.
- Codel.Queue.Dequeue: the justification of drops assumes interval at most 2^31 and target below 2^31, outside of which the comparisons do not mean what they are for; the backlog is that of the queue the packets come from.
- Fq.Scheduler.TinEnqueue: the 32-bit memory counter is assumed not to wrap, packets to be non-empty and no larger than their truesize, and no longer than some bound maxLen, which only fairness uses; the hash is a parameter.
- Fq.Scheduler.TinDequeue: with fq_flow_dequeue as the callback; mac80211's own callback, which runs CoDel per flow, is not modelled.
- Pkcs7.Message.Verify: the checks of the content type for each use, the digest computation and the parsing of the message are not modelled.
- Netlink.ValidateParse: headers and integers are read little-endian; a policy that declares an integer attribute shorter than its type, so that the source reads beyond the payload, is read as if zeros followed; messages for the user are not modelled.
- MulDiv.ErrorWhenShifted: no claim is made for a shift by the full width, whose outcome depends on the machine.
- sym_calc_value, the defaults and ranges of symbols, conf_write_defconfig and the header printer are not modelled.
- The allocation and freeing of flows is not modelled.
- The terminal user interfaces, file handling, locks, memory management and the version shims of the package are not modelled.
