# Pairs-trading backtest, modelled in Dafny

This project models the signal-to-PnL core of a Kalman-filter pairs-trading
backtest. The same pipeline exists twice in the repository:

- the interactive Streamlit app (`app.py`), with a chosen entry threshold and
  rolling window, a Sharpe ratio guarded against zero volatility, and three
  reported figures;
- the batch script (`strategy.py`), with the threshold fixed at 2.0 and the
  window fixed at 30, no Sharpe guard, and both the raw (cost-free) and net
  cumulative PnL.

Both pipelines run these steps:

1. Take the target price `priceY`, the reference price `priceX` and the
   filter's estimates `alpha` and `beta`.
2. Form the spread `priceY - (alpha + beta * priceX)`.
3. Standardise the spread with a rolling z-score.
4. Run a hysteresis state machine over the z-scores:
   - go short above the threshold;
   - go long below its negation;
   - go flat inside the 0.5 exit band;
   - otherwise hold.
5. Mark each change of position as a trade.
6. Charge daily PnL with yesterday's position times today's spread change.
7. Subtract 0.005 per unit traded.
8. Accumulate the result and summarise it with a Sharpe ratio.

pandas' NaN is `None` in an `Option<real>`. The model keeps pandas' rules for it:
- `pos_series.shift(1)` and `spread.shift(1)` make the first step's gross PnL NaN, so net PnL is NaN there too.
- `diff()` on the positions is NaN at the first step, and `fillna(0)` makes that trade indicator 0.
- A NaN z-score fails every comparison, so the position is held.
- `cumsum()` skips NaN but leaves NaN in place.
- `mean()` and `std()` ignore NaN. `std()` with fewer than two values is NaN.

Modules:

- `Options`: `Option` and `Result`.
- `Stats`: sums and means over exact reals, and the defined (non-NaN) entries of a series. It also defines the abstract standard deviation `StdDev`: a function that is non-negative on series of two or more values and zero exactly on the constant ones.
- `Signal`: the spread, rolling z-scores, and the position fold with its rules. `SimulatePositions` is the position loop of `app.py:86-93` and `strategy.py:39-46`.
- `Backtest`: the trade indicator and count, gross and net daily PnL, the cumulative sum, and the Sharpe outcome `NonFinite | Zero | Ratio(q)`. `Ratio(q)` stands for `q * sqrt(252)`.
- `App`: the app's run, from price history to report, with the guarded Sharpe ratio.
- `Strategy`: the batch run with its constants, the raw-versus-net cumulative gap, and the unguarded Sharpe ratio.

## Model

| member | source | states |
|---|---|---|
| Signal.ZScoreDefinedness | app.py:78-80 | The first `window - 1` z-scores are NaN. After that, a z-score is defined exactly when its trailing window is not constant. A defined z-score is positive exactly when the spread is above the window mean. |
| Signal.ConstantSpreadNoSignal | app.py:78-80 | A constant spread never yields a defined z-score. |
| Signal.Positions | app.py:83-93 | The fold emits exactly one position per z-score, and each position is -1, 0 or +1. |
| Signal.PositionsObeyRules | app.py:84-93 | At every step the fold obeys the ordered rules. `z > thr` gives -1. Otherwise `z < -thr` gives +1. Otherwise `abs(z) < 0.5` gives 0. Otherwise (NaN, or the hysteresis band) the previous position is kept, starting from 0. |
| Signal.RulesDetermine | app.py:84-93 | Any position series that obeys those rules at every step is the fold's output, so the rules fix the series uniquely. |
| Signal.HysteresisHolds | app.py:87-93 | If z is defined and `0.5 <= abs(z) <= thr`, the position equals the previous one, whether long, short or flat. |
| Signal.HoldRun | app.py:86-93 | Over a run of steps whose z-scores are NaN or in the hysteresis band, the position stays what it was before the run. |
| Signal.WarmUpFlat | app.py:84-93 | While the z-scores are still NaN, the position is the initial flat 0. |
| Signal.WindowWarmUpFlat | app.py:78-93 | With a rolling window of `w` steps, the first `w - 1` positions are 0. |
| Signal.ShortWindowFlat | app.py:78-93 | With a window of fewer than two steps, the rolling standard deviation is never defined, so every z-score is NaN and every position is 0. |
| Signal.PositionsCausal | app.py:86-93 | The positions up to step k depend only on the z-scores up to step k. |
| Signal.SimulatePositions | app.py:83-93 | The loop that carries `current_pos` emits exactly the fold's series: one position per z-score, each -1, 0 or +1, obeying the ordered rules. |
| Backtest.TradeIndicator | app.py:103 | The trade indicator is 0 at the first step and at most 2 everywhere. After the first step it is zero exactly when the position is unchanged. `strategy.py:55` computes the same indicator. |
| Backtest.TradeCountZeroIffNeverChanges | app.py:117 | For positions in {-1, 0, +1}, the total trade count is 0 exactly when the position never changes from its first value. |
| Backtest.NoLookAhead | app.py:98-99 | Gross PnL up to step t is fixed by the positions before t and the spreads up to t. Two runs that agree there agree on gross PnL, whatever their position at t or later. `strategy.py:50-51` is the same computation. |
| Backtest.CostAccounting | app.py:102-104 | Net PnL is NaN exactly at the first step. Elsewhere it is gross PnL minus 0.005 per unit traded, so it never exceeds gross. A single one-unit change of position (such as 0 to 1) lowers it by exactly 0.005. `strategy.py:53-57` does the same. |
| Backtest.ScanTotal | app.py:105 | At every defined step, the cumulative sum is the start value plus the sum of the defined entries up to and including that step. NaN entries are skipped. |
| Backtest.RunningSum | app.py:105 | Each defined cumulative value is the sum of the defined daily PnL before it plus today's. When yesterday was defined too, it is yesterday's cumulative value plus today's PnL. |
| Backtest.AllFlat | app.py:98-105 | If every position is 0, every trade indicator and the trade count are 0. Gross PnL, net PnL and cumulative PnL are 0 at every step after the first. |
| App.GuardedSharpe | app.py:108-111 | The ratio is NaN exactly when there are fewer than two defined daily PnL values, because then the standard deviation is NaN and passes the guard. It is exactly 0 when the defined daily PnL is constant. Otherwise it is a ratio with the sign of the mean daily PnL: positive exactly when the mean is positive, negative exactly when it is negative, and so 0 exactly when the mean is 0. |
| App.CumulativeIsRunningSum | app.py:105 | For the app's net PnL, `cum[t] = cum[t-1] + net[t]` from the third step on, and `cum[1] = net[1]`. |
| App.Run | app.py:53-117 | The run fails exactly on an empty price history. Otherwise it gives one position per step, each in {-1, 0, +1}, flat through the warm-up. The total trade count is 0 exactly when the position never changes. Net profit is NaN only for a one-step history. |
| App.ConstantSpreadStaysFlat | app.py:74-111 | A constant spread never opens a position. Nothing is traded, and cumulative PnL is 0 after the first step. The Sharpe ratio is exactly 0 once there are two defined daily PnL values, and NaN before that. |
| App.SharpeOfFlat | app.py:108-111 | With all positions flat, the guarded Sharpe ratio is 0 for three or more steps and NaN for fewer. |
| App.IdenticalPricesStayFlat | app.py:74-117 | This is the case where the target and reference prices coincide and the alpha and beta given to the run are the exact hedge (alpha 0, beta 1). The Kalman filter does not produce those estimates from identical prices, so this is a constant-spread instance of `ConstantSpreadStaysFlat`, not the filter run on identical tickers. The run then reports a zero spread and a flat position at every step, no trades, and a net profit of 0 for two or more steps (NaN for a single step). Its Sharpe ratio is 0 for three or more steps, otherwise NaN. |
| Strategy.UnguardedSharpe | strategy.py:61 | The batch Sharpe ratio is never the guard's 0. It is non-finite exactly when there are fewer than two defined values or the daily PnL is constant (division by a zero standard deviation). Otherwise it equals the guarded ratio. |
| Strategy.SharpeGuardDifference | strategy.py:61 | The batch and app Sharpe ratios differ exactly when there are at least two defined daily PnL values and they are constant. |
| Strategy.Run | strategy.py:29-63 | With threshold 2.0 and window 30, the run gives one position per step, each in {-1, 0, +1}, and the first 29 are 0. It fails exactly on an empty history. |
| Strategy.CumulativeGap | strategy.py:57-59 | Suppose net and gross PnL are NaN at the same steps, no trade happens at a NaN step, and wherever gross is defined, net is gross minus 0.005 per unit traded. Then the two cumulative sums differ at each defined step by 0.005 times the trades made so far. |
| Strategy.CostGap | strategy.py:83-84 | At every step after the first, raw cumulative PnL minus net cumulative PnL is 0.005 times the number of trades made up to that step. |
| Strategy.CostGapNonDecreasing | strategy.py:83-84 | The gap between raw and net cumulative PnL never shrinks from one step to the next. |
| Strategy.ReportCostGap | strategy.py:57-84 | In the batch run's report, the raw and net cumulative series differ by exactly that cost of trades. |

## Left out

- The Kalman filter (`kalman.py`, `KalmanRegression.update`) is a floating-point 2x2 covariance recursion. The `alpha` and `beta` series are inputs to the model.
- Floating point: all arithmetic is over exact reals. Rounding is not modelled. In particular, a constant window gives a standard deviation of exactly 0, where floats could give a tiny non-zero value.
- How the rolling standard deviation is computed (sample variance and square root). `StdDev` is a parameter that only has to be non-negative and zero exactly on constant series. The annualising factor `252**0.5` is not multiplied out: `Ratio(q)` stands for `q * sqrt(252)`.
- Signal.ZScores: a window whose standard deviation is zero gives NaN. In exact arithmetic the numerator `s[t] - mean` is then 0 too, so pandas' `0/0` is NaN.
- Strategy.UnguardedSharpe: it does not distinguish `inf` from NaN when the standard deviation is 0. Both are `NonFinite`, because either way the ratio is not a number that can be reported.
- Strategy.Run: on an empty history the batch script would fail while printing `cumulative_pnl.iloc[-1]`. The model reports this as the error `EmptyHistory` and does not model the exception.
- pandas index alignment, `dropna()` on the download, and `@st.cache_data` are left out. Series are plain sequences of equal length.
- The two sidebar sliders, `z_threshold` and `window_size` (`app.py:24-25`), are not read from the UI. They become the parameters `threshold` and `window` of `App.Run`, which holds for every value, not only the sliders' ranges 1.0-3.0 and 10-60.
- Selecting the price columns by ticker name is left out. `App.Run` starts from the two price sequences already selected. `get_data` upper-cases the tickers before checking the downloaded columns (`app.py:29-30`, `app.py:39`), but the run indexes `prices[ticker1]` and `prices[ticker2]` with the tickers as typed (`app.py:64-65`, `app.py:74-75`). So a lower-case ticker that downloads successfully would then stop the run with a KeyError. App.Run's "fails exactly on an empty price history" therefore describes only the run after column selection.
- The other Streamlit inputs (tickers and dates), the yfinance download in `get_data` and its error messages, console output, and all matplotlib and `st.line_chart` rendering are left out. They decide which prices are fetched and how results are shown. They do not change how the prices are computed on.
