/** The fixed, compiled-in catalogue of the quiz: the question bank and the
    palette of player colours. */
module Catalog {

  /** A multiple-choice question: its prompt, its options and the 0-based
      index of the correct option. */
  datatype Question = Question(prompt: string, options: seq<string>, correct: nat)

  /** The shape every question of the bank has: four options and a correct
      index that names one of them. */
  ghost predicate WellFormed(q: Question) {
    |q.options| == 4 && q.correct < |q.options|
  }

  /** The colour tags handed out to players by position in the roster. */
  datatype Color = Red | Blue | Green | Yellow | Purple | Pink | Indigo | Orange

  const Palette: seq<Color> := [Red, Blue, Green, Yellow, Purple, Pink, Indigo, Orange]

  /** Largest roster the setup screen admits; one palette entry per seat. */
  const MaxPlayers: nat := 8

  /** Number of questions drawn for one session (before clipping to the bank). */
  const QuestionsPerGame: nat := 8

  const Bank: seq<Question> := [
    Question("Which famous play features a character named Romeo?",
      ["Hamlet", "Romeo and Juliet", "Macbeth", "Othello"], 1),
    Question("What is the largest mammal in the world?",
      ["Elephant", "Blue whale", "Giraffe", "Hippo"], 1),
    Question("What is the main ingredient in guacamole?",
      ["Tomato", "Onion", "Avocado", "Pepper"], 2),
    Question("Who is known as the \"Father of the United States\"?",
      ["Thomas Jefferson", "George Washington", "Benjamin Franklin", "John Adams"], 1),
    Question("Who painted the Mona Lisa?",
      ["Michelangelo", "Pablo Picasso", "Leonardo da Vinci", "Vincent van Gogh"], 2),
    Question("What is the name of the largest ocean on Earth?",
      ["Atlantic Ocean", "Pacific Ocean", "Indian Ocean", "Arctic Ocean"], 1),
    Question("What famous music group was John Lennon a part of?",
      ["The Rolling Stones", "The Beatles", "Led Zeppelin", "Queen"], 1),
    Question("In the story of Snow White, how many dwarfs are there?",
      ["Five", "Six", "Seven", "Eight"], 2),
    Question("Who is the king of the gods in Greek mythology?",
      ["Apollo", "Zeus", "Poseidon", "Hades"], 1),
    Question("What do bees collect to make honey?",
      ["Pollen", "Nectar", "Water", "Sap"], 1),
    Question("In what galaxy is our solar system located?",
      ["Andromeda", "Milky Way", "Orion", "Pegasus"], 1),
    Question("Which planet is known as the \"Blue Planet\"?",
      ["Mars", "Venus", "Neptune", "Earth"], 3),
    Question("What is the capital of France?",
      ["London", "Berlin", "Paris", "Madrid"], 2),
    Question("How many sides does a triangle have?",
      ["2", "3", "4", "5"], 1),
    Question("What is the fastest land animal?",
      ["Lion", "Cheetah", "Horse", "Leopard"], 1),
    Question("Which gas do plants absorb from the atmosphere?",
      ["Oxygen", "Nitrogen", "Carbon Dioxide", "Hydrogen"], 2),
    Question("What is 5 + 7?",
      ["10", "11", "12", "13"], 2),
    Question("Which season comes after winter?",
      ["Summer", "Spring", "Fall", "Autumn"], 1)
  ]

  /** Every entry of the bank has four options and an in-range answer. */
  lemma BankWellFormed()
    ensures |Bank| == 18
    ensures forall i :: 0 <= i < |Bank| ==> WellFormed(Bank[i])
  {
  }

  /** No two questions of the bank share a prompt. */
  lemma BankDistinct()
    ensures forall i, j :: 0 <= i < j < |Bank| ==> Bank[i].prompt != Bank[j].prompt
  {
  }

  /** One palette entry per seat of a full roster. */
  lemma PaletteCoversRoster()
    ensures |Palette| == MaxPlayers
    ensures forall i, j :: 0 <= i < j < |Palette| ==> Palette[i] != Palette[j]
  {
  }

  /** `order` lists every index of a sequence of length `n` exactly once. */
  ghost predicate IsPermutation(order: seq<nat>, n: nat) {
    |order| == n &&
    (forall i :: 0 <= i < |order| ==> order[i] < n) &&
    (forall i, j :: 0 <= i < j < |order| ==> order[i] != order[j])
  }

  function Min(a: nat, b: nat): nat { if a <= b then a else b }

  /** The questions of one session: the bank rearranged by `order` (the
      outcome of the shuffle), cut to its first eight entries. */
  function Deal(order: seq<nat>): (picked: seq<Question>)
    requires IsPermutation(order, |Bank|)
    ensures |picked| == Min(QuestionsPerGame, |Bank|)
    ensures forall i :: 0 <= i < |picked| ==> picked[i] == Bank[order[i]]
    ensures forall i, j :: 0 <= i < j < |picked| ==> picked[i] != picked[j]
  {
    BankDistinct();
    var shuffled := seq(|order|, i requires 0 <= i < |order| => Bank[order[i]]);
    shuffled[..Min(QuestionsPerGame, |shuffled|)]
  }
}
