/** `getGreeting`, with the hour of day passed in instead of read from the clock. */
module Helper {

  /** The four greetings, in the order the day passes through them. */
  const Greetings := ["Selamat Pagi", "Selamat Siang", "Selamat Sore", "Selamat Malam"]

  /** The Indonesian greeting for an hour of the day. */
  function Greeting(hour: int): (greeting: string)
    ensures hour < 12 ==> greeting == "Selamat Pagi"
    ensures 12 <= hour < 15 ==> greeting == "Selamat Siang"
    ensures 15 <= hour < 18 ==> greeting == "Selamat Sore"
    ensures 18 <= hour ==> greeting == "Selamat Malam"
  {
    if hour < 12 then "Selamat Pagi"
    else if hour < 15 then "Selamat Siang"
    else if hour < 18 then "Selamat Sore"
    else "Selamat Malam"
  }

  /** Where a greeting stands in the day: 0 for morning up to 3 for night. */
  function Phase(greeting: string): (k: nat)
    requires greeting in Greetings
    ensures k < |Greetings| && Greetings[k] == greeting
  {
    if greeting == Greetings[0] then 0
    else if greeting == Greetings[1] then 1
    else if greeting == Greetings[2] then 2
    else 3
  }

  /** Every hour gets exactly one of the four greetings. */
  lemma GreetingPartition(hour: int)
    ensures Greeting(hour) in Greetings
    ensures forall k :: 0 <= k < |Greetings| && Greetings[k] == Greeting(hour) ==> k == Phase(Greeting(hour))
  {
  }

  /** As the hour increases the greeting only moves forward: Pagi, Siang, Sore, Malam. */
  lemma GreetingMonotone(earlier: int, later: int)
    requires earlier <= later
    ensures Phase(Greeting(earlier)) <= Phase(Greeting(later))
  {
  }
}
