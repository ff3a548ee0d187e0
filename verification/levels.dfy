/** The three built-in difficulty levels (components/MemoryGame.tsx, DIFFICULTY_LEVELS). */
module Levels {
  import opened Seqs

  /** The keys of DIFFICULTY_LEVELS, in declaration order. */
  datatype Level = Easy | Medium | Hard

  /** A level's display label, grid class string and symbol list. */
  datatype DifficultyLevel = DifficultyLevel(name: string, grid: string, emojis: seq<string>)

  const Dog := "\U{1F436}"
  const Cat := "\U{1F431}"
  const Mouse := "\U{1F42D}"
  const Hamster := "\U{1F439}"
  const Rabbit := "\U{1F430}"
  const Fox := "\U{1F98A}"
  const Bear := "\U{1F43B}"
  const Panda := "\U{1F43C}"
  const Koala := "\U{1F428}"
  const Tiger := "\U{1F42F}"

  /** The level the component starts on. */
  const DefaultLevel := Medium

  /** How many symbol pairs a level deals. */
  function PairCount(l: Level): nat {
    match l
    case Easy => 6
    case Medium => 8
    case Hard => 10
  }

  /** Each level lists its symbols without repeats, as many as its pair count. */
  function Config(l: Level): (d: DifficultyLevel)
    ensures Distinct(d.emojis)
    ensures |d.emojis| == PairCount(l)
  {
    match l
    case Easy =>
      DifficultyLevel("F\U{e1}cil", "grid-cols-2 sm:grid-cols-3",
                      [Dog, Cat, Mouse, Hamster, Rabbit, Bear])
    case Medium =>
      DifficultyLevel("Medio", "grid-cols-3 sm:grid-cols-4",
                      [Dog, Cat, Mouse, Hamster, Rabbit, Fox, Bear, Panda])
    case Hard =>
      DifficultyLevel("Dif\U{ed}cil", "grid-cols-4 sm:grid-cols-5",
                      [Dog, Cat, Mouse, Hamster, Rabbit, Fox, Bear, Panda, Koala, Tiger])
  }
}
