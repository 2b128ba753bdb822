/** The three difficulty tiers of the memory game ("easy" | "medium" | "hard"). */
module Difficulties {
  datatype Difficulty = Easy | Medium | Hard
}
