# Seed transition animation: the counter, its reducer and the integer part of the view

The application is a small Seed (Rust, compiled to WebAssembly) animation. A
500 ms timer delivers `Tick` messages. The `update` reducer advances a single
`usize` counter and arms the next timer. `view` draws six labelled points on
an SVG canvas, together with a panel whose text colour depends on the counter.

This project models the exact integer logic of that loop in Dafny:

- `usize.dfy` (module `Usize`): the machine word. The crate targets `wasm32`, where
  `usize` is 32 bits, so `MAX` is `2^32 - 1`. No proof depends on that particular value.
- `update.dfy` (module `Animation`): `Model` and its default, `Msg`, the timer command
  `wait_tick`, the `update` reducer as a pure function returning the new model, the
  commands it issues and the lines it logs, `after_mount`, and laws over whole
  sequences of messages.
- `runtime.dfy` (module `EventLoop`): the loop around the reducer. Mounting arms one
  timer. Each delivered message consumes one pending timer and hands the message to
  `update`. The model keeps a count of pending timers and shows that exactly one
  timer is in flight after mount and after every message.
- `view.dfy` (module `View`): the label `6 - num + count / 10` of each of the six
  points, the whole-number phase `count % 10`, and the panel colour (`purple` when
  `count > 4`, otherwise `gray`).

The `Error` branch of `update` also re-arms the timer. The command is performed
after the `match`, at src/lib.rs:42, so it runs on both branches. In the code,
`wait_tick` always resolves to `Ok(Msg::Tick)`, so an `Error` message never comes
from the loop itself. This `view` attaches no event handlers, so in this application
every message comes from a performed `wait_tick`. `EventLoop.Deliver` therefore
assumes each message, `Tick` or `Error`, consumes one pending timer.

## Model

| member | source | states |
|---|---|---|
| Animation.Init | src/lib.rs:12-16 | the default model has count 0 |
| Animation.Resolve | src/lib.rs:26-29 | the timer command always resolves to a message that is not an error |
| Animation.Update | src/lib.rs:31-43 | exactly one `wait_tick` is issued for either message; a tick is the successor modulo MAX + 1 (count + 1 below MAX, 0 at MAX) and logs nothing; an error leaves the model unchanged and its log holds exactly the text passed to `log!` |
| Animation.AfterMount | src/lib.rs:105-108 | mounting issues exactly one command, and it resolves to a tick |
| Animation.RunCount | src/lib.rs:33-39 | after any sequence of messages the count is the starting count plus the number of ticks, modulo MAX + 1 |
| Animation.CountFromInit | src/lib.rs:12-39 | from the default model the count is the number of ticks modulo MAX + 1, and equals it while at most MAX ticks have been handled |
| Animation.ErrorsAreInert | src/lib.rs:40 | a sequence made only of error messages leaves the model unchanged |
| Animation.RunAppend | src/lib.rs:31-43 | handling two sequences one after the other is the same as handling their concatenation |
| Animation.FullCycle | src/lib.rs:34-38 | exactly MAX + 1 ticks bring the counter back to its starting value |
| EventLoop.Mount | src/lib.rs:105-108 | after mount the count is 0, one timer is pending, one timer was issued, and nothing has been logged |
| EventLoop.Deliver | src/lib.rs:31-43 | delivering a message consumes one timer and `update` arms one, so the pending count is unchanged; issued and delivered each go up by one; the model is the reducer's new model; only an error adds its text to the log |
| EventLoop.Drive | src/lib.rs:31-43 | delivering a sequence keeps the pending count, adds one issued timer per message, gives the model of the reducer run over the sequence, and appends exactly the error texts to the log |
| EventLoop.MountedTrace | src/lib.rs:31-43 | after mount and any messages exactly one timer is pending, one timer per message plus one was issued, the count is the number of ticks modulo MAX + 1, and the log is the error texts in order |
| EventLoop.UndisturbedTicks | src/lib.rs:26-29 | n undisturbed firings hold n ticks and no error text |
| EventLoop.UndisturbedCount | src/lib.rs:26-43 | left alone, the displayed count after n firings is n modulo MAX + 1, nothing is logged, and one timer stays pending |
| View.Key | src/lib.rs:95 | the label of a point never underflows or overflows `usize` and lies between `1 + count / 10` and `6 + count / 10` |
| View.Keys | src/lib.rs:93-99 | six labels, label `num` is that point's key; the first is `6 + count / 10`, the last `1 + count / 10`, neighbours differ by exactly 1, and they strictly decrease |
| View.KeysRange | src/lib.rs:93-95 | the set of labels is exactly the six numbers from `1 + count / 10` to `6 + count / 10` |
| View.KeysSameDecade | src/lib.rs:95 | two counts with the same `count / 10` show identical labels |
| View.KeysShift | src/lib.rs:95 | between two counts, every label moves by exactly the difference of their decades |
| View.TickKeys | src/lib.rs:95 | a tick from `10k + 9` raises every label by 1; any other tick below MAX leaves the labels unchanged |
| View.WrapKeys | src/lib.rs:95 | the wrap-around tick at MAX brings the labels back to 6, 5, 4, 3, 2, 1 |
| View.Phase | src/lib.rs:96 | the integer phase feeding a point's position is below 10 and differs from the count by a multiple of 10 |
| View.PanelColour | src/lib.rs:86 | the panel is purple if and only if the count is greater than 4 |
| View.ColourName | src/lib.rs:86 | purple is written `"purple"` and gray `"gray"` |
| View.ColourNamesDistinct | src/lib.rs:86 | two colours have the same name if and only if they are the same colour |
| View.ColourBoundary | src/lib.rs:86 | the colour switches between 4 (gray) and 5 (purple) |
| View.ColourMonotone | src/lib.rs:86 | once the panel is purple it stays purple as the count grows |
| View.ColourAfterTicks | src/lib.rs:86 | from mount, before the counter wraps, the panel is purple exactly when more than four ticks have been handled |
| View.Render | src/lib.rs:75-103 | one render shows the count itself, six labels with label `num` equal to `6 - num + count / 10`, the phase `count % 10` (below 10), and purple exactly when the count is greater than 4 |
| View.CountFromFrame | src/lib.rs:90-96 | the last label and the phase together determine the count |

## Left out

- Point geometry: `point` and the `pos` computation (src/lib.rs:47-49, 96) use `f32` arithmetic and `sin`. The model keeps only the whole-number phase `count % 10`.
- DOM and SVG construction: the `div!`, `svg!`, `g!`, `circle!`, `text!`, `style!` and `attrs!` macros, the fixed sizes and the CSS transition. These are UI built by library macros whose expansion is not part of this model. `View.Render` keeps the integer content only.
- Timing of `wait_tick`: the 500 ms `TimeoutFuture` and the async runtime. The command is modelled only as "issues one timer that later delivers `Tick`". Which message arrives, and when, is an input of `EventLoop.Drive`.
- `log!`: writing to the browser console is I/O, and its formatting of the argument belongs to the logging macro, which is not part of this model. `Step.log` and `EventLoop.Runtime.log` hold the text passed to `log!`.
- Bootstrap: `#[wasm_bindgen(start)]` and the `App::builder` wiring (src/lib.rs:110-115) are framework startup. Their effect (mount, then one `update` per message) is what `EventLoop` models. The re-render after every update is done by the framework and is not modelled.
- EventLoop.Deliver: requires a pending timer and assumes every message consumes one. This holds here because this application's `view` attaches no event handlers and nothing else sends messages, so every message comes from a performed `wait_tick`. Messages from other Seed sources (event handlers, streams, `orders.send_msg`) are not modelled.
